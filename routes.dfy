/** The two store-facing handlers of routes.py: `signup` registers a customer
    and sends the welcome voucher, and `daily_check` walks every stored
    customer once, regenerating the voucher code 8 days after the birthday
    and sending the two-week and one-month reminders. The users table is a
    `UserStore` object whose rows the handlers update in place. */
module Routes {
  import opened Common
  import opened Dates
  import opened Request
  import Services
  import opened Lifecycle
  import Http
  import Mailer
  import Sms

  /** One row of the users table. */
  datatype Row = Row(
    id: int,
    name: string,
    birthDay: int,
    birthMonth: int,
    signupDate: Date,
    email: string,
    phone: string,
    emailSent: int,
    smsSent: int,
    voucherCode: Option<string>)

  /** The `voucher_code` column, in store order (NULL is None). */
  function Codes(rows: seq<Row>): (codes: seq<Option<string>>)
    ensures |codes| == |rows|
    ensures forall k :: 0 <= k < |rows| ==> codes[k] == rows[k].voucherCode
  {
    seq(|rows|, k requires 0 <= k < |rows| => rows[k].voucherCode)
  }

  /** `id` is the primary key and `signup_date` a DATE column. */
  predicate WellFormed(rows: seq<Row>) {
    && (forall j, k :: 0 <= j < k < |rows| ==> rows[j].id != rows[k].id)
    && (forall k :: 0 <= k < |rows| ==> Valid(rows[k].signupDate))
  }

  /** `UPDATE users SET voucher_code = code WHERE id = id`. */
  function SetCode(rows: seq<Row>, id: int, code: string): (r: seq<Row>)
    ensures |r| == |rows|
    ensures forall k :: 0 <= k < |rows| ==>
      r[k] == if rows[k].id == id then rows[k].(voucherCode := Some(code)) else rows[k]
  {
    seq(|rows|, k requires 0 <= k < |rows| =>
      if rows[k].id == id then rows[k].(voucherCode := Some(code)) else rows[k])
  }

  /** `UPDATE users SET email_sent = e, sms_sent = s WHERE id = id`. */
  function SetFlags(rows: seq<Row>, id: int, emailSent: int, smsSent: int): (r: seq<Row>)
    ensures |r| == |rows|
    ensures forall k :: 0 <= k < |rows| ==>
      r[k] == if rows[k].id == id then rows[k].(emailSent := emailSent, smsSent := smsSent) else rows[k]
  {
    seq(|rows|, k requires 0 <= k < |rows| =>
      if rows[k].id == id then rows[k].(emailSent := emailSent, smsSent := smsSent) else rows[k])
  }

  /** Some stored row already has this email (the `SELECT ... WHERE email = %s`
      of `signup`). */
  predicate EmailTaken(rows: seq<Row>, email: string) {
    exists k :: 0 <= k < |rows| && rows[k].email == email
  }

  /** The users table (MySQL), with its AUTO_INCREMENT counter. */
  class UserStore {
    var rows: seq<Row>
    var nextId: int

    ghost predicate Valid()
      reads this
    {
      WellFormed(rows) && forall k :: 0 <= k < |rows| ==> rows[k].id < nextId
    }

    constructor ()
      ensures Valid() && rows == [] && nextId == 1
    {
      rows := [];
      nextId := 1;
    }

    /** `SELECT id FROM users WHERE email = %s` followed by `fetchone()`. */
    method HasEmail(email: string) returns (found: bool)
      ensures found <==> EmailTaken(rows, email)
    {
      found := false;
      var k := 0;
      while k < |rows|
        invariant 0 <= k <= |rows|
        invariant found <==> exists j :: 0 <= j < k && rows[j].email == email
      {
        if rows[k].email == email {
          found := true;
        }
        k := k + 1;
      }
    }

    /** The INSERT of a new customer; returns `cursor.lastrowid`. */
    method Insert(name: string, birthDay: int, birthMonth: int, signupDate: Date,
                  email: string, phone: string, code: string) returns (id: int)
      requires Valid() && Dates.Valid(signupDate)
      modifies this
      ensures Valid()
      ensures id == old(nextId) && nextId == old(nextId) + 1
      ensures rows == old(rows) + [Row(id, name, birthDay, birthMonth, signupDate, email, phone, 0, 0, Some(code))]
    {
      id := nextId;
      rows := rows + [Row(id, name, birthDay, birthMonth, signupDate, email, phone, 0, 0, Some(code))];
      nextId := nextId + 1;
    }

    method UpdateVoucherCode(id: int, code: string)
      requires Valid()
      modifies this
      ensures Valid()
      ensures rows == SetCode(old(rows), id, code) && nextId == old(nextId)
    {
      rows := SetCode(rows, id, code);
    }

    method UpdateFlags(id: int, emailSent: int, smsSent: int)
      requires Valid()
      modifies this
      ensures Valid()
      ensures rows == SetFlags(old(rows), id, emailSent, smsSent) && nextId == old(nextId)
    {
      rows := SetFlags(rows, id, emailSent, smsSent);
    }
  }

  // ------------------------------------------------------ daily_check, as values

  /** What `get_next_voucher_code` returns and the UPDATE writes for one user. */
  function Regenerate(rows: seq<Row>, id: int): seq<Row> {
    SetCode(rows, id, Services.NextVoucherCode(Codes(rows)))
  }

  /** One result entry with the send outcomes left out. */
  datatype Plan = Plan(userId: int, voucherUpdated: bool, twoWeeks: bool, oneMonth: bool)

  /** The state of the run: still going (rows as now stored, entries so far),
      or stopped by an exception (rows as committed before it). */
  datatype RunState = Running(rows: seq<Row>, plan: seq<Plan>) | Crashed(rows: seq<Row>)

  /** Whether the user's voucher is regenerated, given its evaluation (when
      the evaluation raised, whether the UPDATE happened before it). */
  predicate Regenerates(ev: Evaluation) {
    match ev
    case Skipped => false
    case Raised(due) => due
    case Evaluated(d) => d.voucherDue
  }

  /** How `daily_check` treats one user of the snapshot, given its evaluation. */
  function Step(st: RunState, u: Row, ev: Evaluation): RunState {
    match st
    case Crashed(_) => st
    case Running(rows, plan) =>
      var rows' := if Regenerates(ev) then Regenerate(rows, u.id) else rows;
      match ev
      case Skipped => st
      case Raised(_) => Crashed(rows')
      case Evaluated(d) =>
        Running(rows', plan + [Plan(u.id, d.voucherDue, d.twoWeeks.Some?, d.oneMonth)])
  }

  /** Every user of the snapshot evaluated against `today`. */
  function Evaluations(today: Date, users: seq<Row>): (evs: seq<Evaluation>)
    requires Valid(today) && forall k :: 0 <= k < |users| ==> Valid(users[k].signupDate)
    ensures |evs| == |users|
  {
    seq(|users|, k requires 0 <= k < |users| =>
      Evaluate(today, users[k].birthMonth, users[k].birthDay, users[k].signupDate))
  }

  /** The loop of `daily_check` over the snapshot `users`, whose evaluations
      are `evs`, starting from the stored rows `rows`. */
  function Run(users: seq<Row>, evs: seq<Evaluation>, rows: seq<Row>): RunState
    requires |evs| == |users|
  {
    if users == [] then Running(rows, [])
    else Step(Run(users[..|users| - 1], evs[..|users| - 1], rows), users[|users| - 1], evs[|users| - 1])
  }

  /** The users that get a result entry, in snapshot order. */
  function EvaluatedUsers(users: seq<Row>, evs: seq<Evaluation>): seq<int>
    requires |evs| == |users|
  {
    if users == [] then []
    else
      EvaluatedUsers(users[..|users| - 1], evs[..|users| - 1])
        + if evs[|users| - 1].Evaluated? then [users[|users| - 1].id] else []
  }

  function PlanIds(plan: seq<Plan>): (ids: seq<int>)
    ensures |ids| == |plan| && forall k :: 0 <= k < |plan| ==> ids[k] == plan[k].userId
  {
    seq(|plan|, k requires 0 <= k < |plan| => plan[k].userId)
  }

  // ------------------------------------------------------------- lemmas

  /** Two rows that differ at most in `voucher_code`. */
  predicate SameButCode(a: Row, b: Row) {
    a == b.(voucherCode := a.voucherCode)
  }

  /** A run changes nothing but `voucher_code` (email_sent and sms_sent
      included), and a code changes only for a user of the snapshot whose
      voucher is due that day. */
  lemma {:induction false} RunChangesOnlyCodes(users: seq<Row>, evs: seq<Evaluation>, rows: seq<Row>)
    requires |evs| == |users|
    ensures var out := Run(users, evs, rows).rows;
      && |out| == |rows|
      && (forall k :: 0 <= k < |rows| ==> SameButCode(out[k], rows[k]))
      && (forall k :: 0 <= k < |rows| && out[k].voucherCode != rows[k].voucherCode ==>
            exists j :: 0 <= j < |users| && users[j].id == rows[k].id && Regenerates(evs[j]))
  {
    if users != [] {
      var n := |users| - 1;
      var init, u, ev := users[..n], users[n], evs[n];
      RunChangesOnlyCodes(init, evs[..n], rows);
      var before := Run(init, evs[..n], rows).rows;
      var out := Run(users, evs, rows).rows;
      assert out == before || (Regenerates(ev) && out == Regenerate(before, u.id));
      forall k | 0 <= k < |rows| && out[k].voucherCode != rows[k].voucherCode
        ensures exists j :: 0 <= j < |users| && users[j].id == rows[k].id && Regenerates(evs[j])
      {
        if before[k].voucherCode != rows[k].voucherCode {
          var j :| 0 <= j < n && init[j].id == rows[k].id && Regenerates(evs[..n][j]);
          assert users[j] == init[j] && evs[j] == evs[..n][j];
        } else {
          assert users[n].id == rows[k].id && Regenerates(evs[n]);
        }
      }
    }
  }

  /** The run stops with an exception exactly when some user of the snapshot
      raises; otherwise there is one entry per evaluated user, in order. */
  lemma {:induction false} RunOutcome(users: seq<Row>, evs: seq<Evaluation>, rows: seq<Row>)
    requires |evs| == |users|
    ensures Run(users, evs, rows).Crashed? <==> exists k :: 0 <= k < |users| && evs[k].Raised?
    ensures Run(users, evs, rows).Running? ==> PlanIds(Run(users, evs, rows).plan) == EvaluatedUsers(users, evs)
  {
    if users != [] {
      var n := |users| - 1;
      RunOutcome(users[..n], evs[..n], rows);
      assert forall k :: 0 <= k < n ==> evs[..n][k] == evs[k];
      var st := Run(users[..n], evs[..n], rows);
      if st.Running? && Run(users, evs, rows).Running? {
        assert PlanIds(Run(users, evs, rows).plan)
            == PlanIds(st.plan) + if evs[n].Evaluated? then [users[n].id] else [];
      }
    }
  }

  /** A February 29 birthday, evaluated in a leap year, stops the whole run. */
  lemma LeapDayStopsRun(today: Date, users: seq<Row>, rows: seq<Row>, k: int)
    requires Valid(today) && (forall j :: 0 <= j < |users| ==> Valid(users[j].signupDate))
    requires IsLeap(today.year)
    requires 0 <= k < |users| && users[k].birthMonth == 2 && users[k].birthDay == 29
    ensures Run(users, Evaluations(today, users), rows).Crashed?
  {
    var evs := Evaluations(today, users);
    LeapDayRaises(today, users[k].signupDate);
    assert evs[k] == Evaluate(today, 2, 29, users[k].signupDate);
    RunOutcome(users, evs, rows);
  }

  /** No two stored codes share a numeric suffix. */
  predicate DistinctSuffixes(rows: seq<Row>) {
    forall j, k :: 0 <= j < |rows| && 0 <= k < |rows| && j != k
      && rows[j].voucherCode.Some? && rows[k].voucherCode.Some?
      ==> Services.Suffix(rows[j].voucherCode.value) != Services.Suffix(rows[k].voucherCode.value)
  }

  /** n more codes can be allocated before a suffix reaches the ceiling
      2^64 - 1 of `CAST(... AS UNSIGNED)`. */
  predicate Headroom(rows: seq<Row>, n: nat) {
    && Services.DefaultMax + n < Services.MaxUnsigned
    && forall k :: 0 <= k < |rows| && rows[k].voucherCode.Some? ==>
         Services.Suffix(rows[k].voucherCode.value) + n < Services.MaxUnsigned
  }

  /** With headroom n, the allocated code's suffix is above every stored one
      and leaves n - 1 allocations of headroom. */
  lemma FreshCodeFits(rows: seq<Row>, n: nat)
    requires Headroom(rows, n)
    ensures var c := Services.NextVoucherCode(Codes(rows));
      && Services.Suffix(c) + n <= Services.MaxUnsigned
      && forall k :: 0 <= k < |rows| && rows[k].voucherCode.Some? ==>
           Services.Suffix(rows[k].voucherCode.value) < Services.Suffix(c)
  {
    var codes := Codes(rows);
    Services.NextCodeExceedsStored(codes);
    Services.MaxSuffixIsMax(codes);
    if Services.MaxSuffix(codes).Some? {
      var i :| 0 <= i < |codes| && codes[i].Some? && Services.Suffix(codes[i].value) == Services.MaxSuffix(codes).value;
      assert codes[i] == rows[i].voucherCode;
    }
    forall k | 0 <= k < |rows| && rows[k].voucherCode.Some?
      ensures Services.Suffix(rows[k].voucherCode.value) < Services.Suffix(Services.NextVoucherCode(codes))
    {
      assert codes[k] == rows[k].voucherCode;
    }
  }

  /** Writing a freshly allocated code to one user keeps suffixes distinct
      while no stored suffix is at the ceiling. */
  lemma RegenerateKeepsDistinct(rows: seq<Row>, id: int)
    requires WellFormed(rows)
    ensures WellFormed(Regenerate(rows, id))
    ensures DistinctSuffixes(rows) && Headroom(rows, 0) ==> DistinctSuffixes(Regenerate(rows, id))
  {
    var r := Regenerate(rows, id);
    if DistinctSuffixes(rows) && Headroom(rows, 0) {
      FreshCodeFits(rows, 0);
      forall j, k | 0 <= j < |r| && 0 <= k < |r| && j != k && r[j].voucherCode.Some? && r[k].voucherCode.Some?
        ensures Services.Suffix(r[j].voucherCode.value) != Services.Suffix(r[k].voucherCode.value)
      {
        if rows[j].id == id {
          assert rows[k].id != id;
        }
      }
    }
  }

  /** A regeneration uses up one allocation of headroom. */
  lemma RegenerateUsesHeadroom(rows: seq<Row>, id: int, n: nat)
    requires Headroom(rows, n + 1)
    ensures Headroom(Regenerate(rows, id), n)
  {
    FreshCodeFits(rows, n + 1);
  }

  /** One user's step keeps suffixes distinct and uses at most one
      allocation of headroom. */
  lemma StepKeepsDistinct(st: RunState, u: Row, ev: Evaluation, m: nat)
    requires WellFormed(st.rows)
    ensures WellFormed(Step(st, u, ev).rows)
    ensures DistinctSuffixes(st.rows) && Headroom(st.rows, m + 1) ==>
      DistinctSuffixes(Step(st, u, ev).rows) && Headroom(Step(st, u, ev).rows, m)
  {
    RegenerateKeepsDistinct(st.rows, u.id);
    if Headroom(st.rows, m + 1) {
      assert Headroom(st.rows, 0) && Headroom(st.rows, m);
      RegenerateUsesHeadroom(st.rows, u.id, m);
    }
  }

  /** Every code a run writes is fresh: after the run, stored codes still
      have pairwise distinct suffixes, provided one allocation per user fits
      below the ceiling (m allocations of headroom are left over). */
  lemma {:induction false} RunKeepsSuffixesDistinct(users: seq<Row>, evs: seq<Evaluation>, rows: seq<Row>, m: nat)
    requires |evs| == |users| && WellFormed(rows) && DistinctSuffixes(rows)
    ensures WellFormed(Run(users, evs, rows).rows)
    ensures Headroom(rows, |users| + m) ==>
      DistinctSuffixes(Run(users, evs, rows).rows) && Headroom(Run(users, evs, rows).rows, m)
  {
    if users != [] {
      var n := |users| - 1;
      RunKeepsSuffixesDistinct(users[..n], evs[..n], rows, m + 1);
      StepKeepsDistinct(Run(users[..n], evs[..n], rows), users[n], evs[n], m);
    }
  }

  /** The run over one more user is one more step. */
  lemma RunStep(users: seq<Row>, evs: seq<Evaluation>, rows: seq<Row>, i: int)
    requires |evs| == |users| && 0 <= i < |users|
    ensures Run(users[..i + 1], evs[..i + 1], rows) == Step(Run(users[..i], evs[..i], rows), users[i], evs[i])
  {
    assert users[..i + 1][..i] == users[..i] && evs[..i + 1][..i] == evs[..i];
  }

  /** A step does the same from any earlier list of entries, and only
      appends to it. */
  lemma StepFromAnyPlan(rows: seq<Row>, plan: seq<Plan>, u: Row, ev: Evaluation)
    ensures var alone := Step(Running(rows, []), u, ev);
      var st := Step(Running(rows, plan), u, ev);
      && st.rows == alone.rows && st.Crashed? == alone.Crashed?
      && (st.Running? ==> st.plan == plan + alone.plan)
  {
  }

  /** Once stopped, the run stays stopped with the same rows. */
  lemma {:induction false} CrashPersists(users: seq<Row>, evs: seq<Evaluation>, rows: seq<Row>, n: nat)
    requires |evs| == |users| && n <= |users|
    requires Run(users[..n], evs[..n], rows).Crashed?
    ensures Run(users, evs, rows) == Run(users[..n], evs[..n], rows)
    decreases |users| - n
  {
    if n < |users| {
      assert users[..n + 1][..n] == users[..n] && evs[..n + 1][..n] == evs[..n];
      CrashPersists(users, evs, rows, n + 1);
    } else {
      assert users[..n] == users && evs[..n] == evs;
    }
  }

  // ------------------------------------------------------------ the handlers

  /** The send outcomes of one reminder. */
  datatype Sent = Sent(email: bool, sms: bool)

  /** One entry of `results`. */
  datatype UserResult = UserResult(userId: int, voucherUpdated: bool, twoWeeks: Option<Sent>, oneMonth: Option<Sent>)

  function Outline(results: seq<UserResult>): (plan: seq<Plan>)
    ensures |plan| == |results|
    ensures forall k :: 0 <= k < |results| ==>
      plan[k] == Plan(results[k].userId, results[k].voucherUpdated,
                      results[k].twoWeeks.Some?, results[k].oneMonth.Some?)
  {
    seq(|results|, k requires 0 <= k < |results| =>
      Plan(results[k].userId, results[k].voucherUpdated, results[k].twoWeeks.Some?, results[k].oneMonth.Some?))
  }

  datatype DailyResponse = Unauthorized | InternalError | Checked(results: seq<UserResult>)

  /** The template ID `os.getenv(f"{service}_{key}_ID", "")` of a reminder. */
  function ReminderTemplate(env: map<string, string>, service: string, key: TemplateKey): Option<string> {
    Some(GetenvOr(env, service + "_" + KeyName(key) + "_ID", ""))
  }

  /** The reminder email for `key` sent to user u. */
  function ReminderEmail(mailer: Mailer.MailerSendClient, env: map<string, string>,
                         key: TemplateKey, u: Row): Mailer.EmailPayload {
    Mailer.PayloadFor(mailer.senderEmail, u.email, u.name, ReminderTemplate(env, "MAILERSEND", key),
                      Mailer.NoAttachment)
  }

  /** The reminder SMS for `key` sent to user u, whose voucher code is `code`. */
  function ReminderSms(sms: Sms.CellCastClient, env: map<string, string>,
                       key: TemplateKey, u: Row, code: Option<string>): Sms.SmsPayload {
    Sms.PayloadFor(ReminderTemplate(env, "CELLCAST", key), [Sms.Recipient(u.phone, u.name, ImageUrl(code))],
                   sms.senderId, sms.source, sms.customString, None, None)
  }

  /** The voucher code a user holds once its UPDATE, if any, has been made
      against the rows `rows`. */
  function CodeAfter(rows: seq<Row>, u: Row, ev: Evaluation): Option<string> {
    if Regenerates(ev) then Some(Services.NextVoucherCode(Codes(rows))) else u.voucherCode
  }

  /** Sends one reminder by email and by SMS. */
  method Remind(mailer: Mailer.MailerSendClient, sms: Sms.CellCastClient, env: map<string, string>,
                key: TemplateKey, user: Row, code: Option<string>) returns (sent: Sent)
    modifies mailer.api, sms.api
    ensures var oks := Mailer.Verdicts(old(mailer.api.pending));
      var n := Http.Attempts(oks, Mailer.DefaultRetries);
      && sent.email == Http.FirstSuccess(oks, Mailer.DefaultRetries).Some?
      && mailer.api.posted == old(mailer.api.posted) + Http.Repeat(ReminderEmail(mailer, env, key, user), n)
      && mailer.api.pending == Http.Drop(old(mailer.api.pending), n)
    ensures var oks := Sms.Verdicts(old(sms.api.pending));
      var n := Http.Attempts(oks, Sms.DefaultRetries);
      && sent.sms == Http.FirstSuccess(oks, Sms.DefaultRetries).Some?
      && sms.api.posted == old(sms.api.posted) + Http.Repeat(ReminderSms(sms, env, key, user, code), n)
      && sms.api.pending == Http.Drop(old(sms.api.pending), n)
  {
    var email := mailer.SendEmail(user.email, user.name, ReminderTemplate(env, "MAILERSEND", key), None, map[],
                                  Mailer.DefaultRetries, Mailer.DefaultBackoffFactor);
    var text := sms.SendSmsTemplate(ReminderTemplate(env, "CELLCAST", key),
                                    [Sms.Recipient(user.phone, user.name, ImageUrl(code))], None, None,
                                    Sms.DefaultRetries, Sms.DefaultBackoffFactor);
    sent := Sent(email, text);
  }

  /** The reminders an evaluated user is due, in the source's order: the
      two-week one (email, then SMS), then the one-month one. */
  method SendReminders(mailer: Mailer.MailerSendClient, sms: Sms.CellCastClient, env: map<string, string>,
                       u: Row, d: Decision, code: Option<string>)
    returns (twoWeeks: Option<Sent>, oneMonth: Option<Sent>)
    modifies mailer.api, sms.api
    ensures
      var e0 := Mailer.Verdicts(old(mailer.api.pending));
      var n0 := if d.twoWeeks.Some? then Http.Attempts(e0, Mailer.DefaultRetries) else 0;
      var e1 := Mailer.Verdicts(Http.Drop(old(mailer.api.pending), n0));
      var n1 := if d.oneMonth then Http.Attempts(e1, Mailer.DefaultRetries) else 0;
      && mailer.api.posted == old(mailer.api.posted)
           + (if d.twoWeeks.Some? then Http.Repeat(ReminderEmail(mailer, env, d.twoWeeks.value, u), n0) else [])
           + (if d.oneMonth then Http.Repeat(ReminderEmail(mailer, env, OneMonth, u), n1) else [])
      && twoWeeks.Some? == d.twoWeeks.Some?
      && oneMonth.Some? == d.oneMonth
      && (d.twoWeeks.Some? ==> twoWeeks.value.email == Http.FirstSuccess(e0, Mailer.DefaultRetries).Some?)
      && (d.oneMonth ==> oneMonth.value.email == Http.FirstSuccess(e1, Mailer.DefaultRetries).Some?)
    ensures
      var s0 := Sms.Verdicts(old(sms.api.pending));
      var m0 := if d.twoWeeks.Some? then Http.Attempts(s0, Sms.DefaultRetries) else 0;
      var s1 := Sms.Verdicts(Http.Drop(old(sms.api.pending), m0));
      var m1 := if d.oneMonth then Http.Attempts(s1, Sms.DefaultRetries) else 0;
      && sms.api.posted == old(sms.api.posted)
           + (if d.twoWeeks.Some? then Http.Repeat(ReminderSms(sms, env, d.twoWeeks.value, u, code), m0) else [])
           + (if d.oneMonth then Http.Repeat(ReminderSms(sms, env, OneMonth, u, code), m1) else [])
      && (d.twoWeeks.Some? ==> twoWeeks.value.sms == Http.FirstSuccess(s0, Sms.DefaultRetries).Some?)
      && (d.oneMonth ==> oneMonth.value.sms == Http.FirstSuccess(s1, Sms.DefaultRetries).Some?)
  {
    twoWeeks := None;
    if d.twoWeeks.Some? {
      var sent := Remind(mailer, sms, env, d.twoWeeks.value, u, code);
      twoWeeks := Some(sent);
    }
    oneMonth := None;
    if d.oneMonth {
      var sent := Remind(mailer, sms, env, OneMonth, u, code);
      oneMonth := Some(sent);
    }
  }

  /** One pass of the loop body for user u, whose evaluation is ev: the
      voucher UPDATE when due, then the two-week reminder, then the one-month
      reminder (each by email, then by SMS), then the result entry; `stop`
      when the evaluation raised, in which case nothing is sent. */
  method CheckUser(store: UserStore, mailer: Mailer.MailerSendClient, sms: Sms.CellCastClient,
                   env: map<string, string>, u: Row, ev: Evaluation) returns (stop: bool, result: UserResult)
    requires store.Valid()
    modifies store, mailer.api, sms.api
    ensures store.Valid() && store.nextId == old(store.nextId)
    ensures var st := Step(Running(old(store.rows), []), u, ev);
      && store.rows == st.rows
      && (stop <==> st.Crashed?)
      && (!stop ==> st.Running? && st.plan == if ev.Evaluated? then Outline([result]) else [])
    ensures !ev.Evaluated? ==>
      && mailer.api.posted == old(mailer.api.posted) && mailer.api.pending == old(mailer.api.pending)
      && sms.api.posted == old(sms.api.posted) && sms.api.pending == old(sms.api.pending)
    ensures ev.Evaluated? ==>
      var d := ev.decision;
      var e0 := Mailer.Verdicts(old(mailer.api.pending));
      var n0 := if d.twoWeeks.Some? then Http.Attempts(e0, Mailer.DefaultRetries) else 0;
      var e1 := Mailer.Verdicts(Http.Drop(old(mailer.api.pending), n0));
      var n1 := if d.oneMonth then Http.Attempts(e1, Mailer.DefaultRetries) else 0;
      && mailer.api.posted == old(mailer.api.posted)
           + (if d.twoWeeks.Some? then Http.Repeat(ReminderEmail(mailer, env, d.twoWeeks.value, u), n0) else [])
           + (if d.oneMonth then Http.Repeat(ReminderEmail(mailer, env, OneMonth, u), n1) else [])
      && result.twoWeeks.Some? == d.twoWeeks.Some?
      && result.oneMonth.Some? == d.oneMonth
      && (d.twoWeeks.Some? ==> result.twoWeeks.value.email == Http.FirstSuccess(e0, Mailer.DefaultRetries).Some?)
      && (d.oneMonth ==> result.oneMonth.value.email == Http.FirstSuccess(e1, Mailer.DefaultRetries).Some?)
    ensures ev.Evaluated? ==>
      var d := ev.decision;
      var code := CodeAfter(old(store.rows), u, ev);
      var s0 := Sms.Verdicts(old(sms.api.pending));
      var m0 := if d.twoWeeks.Some? then Http.Attempts(s0, Sms.DefaultRetries) else 0;
      var s1 := Sms.Verdicts(Http.Drop(old(sms.api.pending), m0));
      var m1 := if d.oneMonth then Http.Attempts(s1, Sms.DefaultRetries) else 0;
      && sms.api.posted == old(sms.api.posted)
           + (if d.twoWeeks.Some? then Http.Repeat(ReminderSms(sms, env, d.twoWeeks.value, u, code), m0) else [])
           + (if d.oneMonth then Http.Repeat(ReminderSms(sms, env, OneMonth, u, code), m1) else [])
      && (d.twoWeeks.Some? ==> result.twoWeeks.value.sms == Http.FirstSuccess(s0, Sms.DefaultRetries).Some?)
      && (d.oneMonth ==> result.oneMonth.value.sms == Http.FirstSuccess(s1, Sms.DefaultRetries).Some?)
  {
    var code := u.voucherCode;
    if Regenerates(ev) {
      var next := Services.NextVoucherCode(Codes(store.rows));
      store.UpdateVoucherCode(u.id, next);
      code := Some(next);
    }
    result := UserResult(u.id, false, None, None);
    match ev
    case Skipped =>
      stop := false;
    case Raised(_) =>
      stop := true;
    case Evaluated(d) =>
      stop := false;
      var twoWeeks, oneMonth := SendReminders(mailer, sms, env, u, d, code);
      result := UserResult(u.id, d.voucherDue, twoWeeks, oneMonth);
  }

  /** daily_check: 401 without the secret; otherwise every user of the
      snapshot is treated as `Run` says, and the store ends as `Run` leaves
      it; an exception ends the run with 500 after the updates made so far. */
  method DailyCheck(store: UserStore, mailer: Mailer.MailerSendClient, sms: Sms.CellCastClient,
                    authToken: Option<string>, secret: Option<string>, today: Date,
                    env: map<string, string>) returns (response: DailyResponse)
    requires store.Valid() && Valid(today)
    modifies store, mailer.api, sms.api
    ensures store.Valid() && store.nextId == old(store.nextId)
    ensures !Authorized(authToken, secret) ==>
      && response == Unauthorized && store.rows == old(store.rows)
      && mailer.api.posted == old(mailer.api.posted) && sms.api.posted == old(sms.api.posted)
    ensures Authorized(authToken, secret) ==>
      var out := Run(old(store.rows), Evaluations(today, old(store.rows)), old(store.rows));
      && store.rows == out.rows
      && (response.InternalError? <==> out.Crashed?)
      && (response.Checked? <==> out.Running?)
      && (response.Checked? ==> Outline(response.results) == out.plan)
  {
    if !Truthy(authToken) || authToken != secret {
      return Unauthorized;
    }
    var users := store.rows;
    var evs := Evaluations(today, users);
    var results: seq<UserResult> := [];
    var i := 0;
    while i < |users|
      invariant 0 <= i <= |users| && users == old(store.rows)
      invariant store.Valid() && store.nextId == old(store.nextId)
      invariant Run(users[..i], evs[..i], users) == Running(store.rows, Outline(results))
    {
      var u := users[i];
      var ev := evs[i];
      RunStep(users, evs, users, i);
      StepFromAnyPlan(store.rows, Outline(results), u, ev);
      var stop, result := CheckUser(store, mailer, sms, env, u, ev);
      if stop {
        CrashPersists(users, evs, users, i + 1);
        return InternalError;
      }
      if ev.Evaluated? {
        assert Outline(results + [result]) == Outline(results) + Outline([result]);
        results := results + [result];
      }
      i := i + 1;
    }
    assert users[..i] == users && evs[..i] == evs;
    return Checked(results);
  }

  // ----------------------------------------------------------------- signup

  /** The JSON body of a signup when it is a non-empty object (a missing or
      falsy body is None); a birth field is None when absent or null. */
  datatype SignupData = SignupData(name: Field, email: Field, phone: Field,
                                   birthDay: Option<int>, birthMonth: Option<int>)

  /** How far a signup request gets before anything is sent. */
  datatype Gate =
    | NoJson
    | FieldError
    | MissingFields
    | DuplicateEmail
    | Admit(name: string, email: string, phone: string, birthDay: int, birthMonth: int)

  /** The guards of `signup` that come before the database is consulted, in
      the source's order: no body, a field whose `.strip()` raises, a missing
      field. */
  function Screen(data: Option<SignupData>): (r: Gate)
    ensures !r.DuplicateEmail?
    ensures r.NoJson? <==> data.None?
    ensures r.FieldError? <==>
      data.Some? && (data.value.name.NonText? || data.value.email.NonText? || data.value.phone.NonText?)
    ensures r.Admit? <==>
      && data.Some?
      && FieldText(data.value.name, "").Some? && FieldText(data.value.name, "").value != ""
      && FieldText(data.value.email, "").Some? && FieldText(data.value.email, "").value != ""
      && FieldText(data.value.phone, "").Some? && FieldText(data.value.phone, "").value != ""
      && TruthyInt(data.value.birthDay) && TruthyInt(data.value.birthMonth)
    ensures r.Admit? ==>
      && r.name == FieldText(data.value.name, "").value
      && r.email == FieldText(data.value.email, "").value
      && r.phone == FieldText(data.value.phone, "").value
      && r.birthDay == data.value.birthDay.value && r.birthMonth == data.value.birthMonth.value
  {
    if data.None? then NoJson
    else
      var d := data.value;
      match (FieldText(d.name, ""), FieldText(d.email, ""), FieldText(d.phone, ""))
      case (Some(name), Some(email), Some(phone)) =>
        if name == "" || email == "" || phone == "" || !TruthyInt(d.birthDay) || !TruthyInt(d.birthMonth) then
          MissingFields
        else Admit(name, email, phone, d.birthDay.value, d.birthMonth.value)
      case _ => FieldError
  }

  /** All request guards of `signup`: those of `Screen`, then an email
      already stored. */
  function Admission(data: Option<SignupData>, rows: seq<Row>): (r: Gate)
    ensures r.NoJson? <==> data.None?
    ensures r.FieldError? <==>
      data.Some? && (data.value.name.NonText? || data.value.email.NonText? || data.value.phone.NonText?)
    ensures r.DuplicateEmail? <==>
      Screen(data).Admit? && exists k :: 0 <= k < |rows| && rows[k].email == Screen(data).email
    ensures r.Admit? <==>
      && data.Some?
      && FieldText(data.value.name, "").Some? && FieldText(data.value.name, "").value != ""
      && FieldText(data.value.email, "").Some? && FieldText(data.value.email, "").value != ""
      && FieldText(data.value.phone, "").Some? && FieldText(data.value.phone, "").value != ""
      && TruthyInt(data.value.birthDay) && TruthyInt(data.value.birthMonth)
      && forall k :: 0 <= k < |rows| ==> rows[k].email != FieldText(data.value.email, "").value
    ensures r.Admit? ==>
      && r.name == FieldText(data.value.name, "").value
      && r.email == FieldText(data.value.email, "").value
      && r.phone == FieldText(data.value.phone, "").value
      && r.birthDay == data.value.birthDay.value && r.birthMonth == data.value.birthMonth.value
  {
    var s := Screen(data);
    if s.Admit? && EmailTaken(rows, s.email) then DuplicateEmail else s
  }

  datatype SignupResponse = BadRequest(message: string) | ServerError | Registered(email: bool, sms: bool)

  /** signup: the guards answer 400 (or 500 when `.strip()` raises) before
      anything is stored or sent; otherwise one row is inserted with the next
      voucher code and today's date, the welcome email (only when the PDF was
      produced) and SMS are sent, and the row's flags record their outcomes.
      `pdfPath` is what `generate_voucher_pdf` returned. */
  method Signup(store: UserStore, mailer: Mailer.MailerSendClient, sms: Sms.CellCastClient,
                data: Option<SignupData>, today: Date, env: map<string, string>,
                pdfPath: Option<string>, files: map<string, Mailer.FileState>) returns (response: SignupResponse)
    requires store.Valid() && Valid(today)
    modifies store, mailer.api, sms.api
    ensures store.Valid()
    ensures !Admission(data, old(store.rows)).Admit? ==>
      && store.rows == old(store.rows) && store.nextId == old(store.nextId)
      && mailer.api.posted == old(mailer.api.posted) && sms.api.posted == old(sms.api.posted)
      && response == match Admission(data, old(store.rows))
                     case NoJson => BadRequest("No JSON received")
                     case FieldError => ServerError
                     case MissingFields => BadRequest("Missing required fields")
                     case _ => BadRequest("Duplicate email")
    ensures Admission(data, old(store.rows)).Admit? ==>
      var a := Admission(data, old(store.rows));
      && response.Registered?
      && store.nextId == old(store.nextId) + 1
      && store.rows == old(store.rows) + [Row(old(store.nextId), a.name, a.birthDay, a.birthMonth, today,
                                              a.email, a.phone,
                                              if response.email then 1 else 0, if response.sms then 1 else 0,
                                              Some(Services.NextVoucherCode(Codes(old(store.rows)))))]
      && ((!Truthy(pdfPath) || Mailer.AttachmentStep(pdfPath, files).AttachFailed?) ==>
            !response.email && mailer.api.posted == old(mailer.api.posted))
      && (Truthy(pdfPath) && !Mailer.AttachmentStep(pdfPath, files).AttachFailed? ==>
            var oks := Mailer.Verdicts(old(mailer.api.pending));
            && response.email == Http.FirstSuccess(oks, Mailer.DefaultRetries).Some?
            && mailer.api.posted == old(mailer.api.posted)
                 + Http.Repeat(WelcomeEmail(mailer, env, a.name, a.email, pdfPath, files),
                               Http.Attempts(oks, Mailer.DefaultRetries)))
      && response.sms == Http.FirstSuccess(Sms.Verdicts(old(sms.api.pending)), Sms.DefaultRetries).Some?
      && sms.api.posted == old(sms.api.posted)
           + Http.Repeat(WelcomeSms(sms, env, a.name, a.phone, Services.NextVoucherCode(Codes(old(store.rows)))),
                         Http.Attempts(Sms.Verdicts(old(sms.api.pending)), Sms.DefaultRetries))
  {
    var admission := Screen(data);
    if admission.Admit? {
      var taken := store.HasEmail(admission.email);
      if taken {
        admission := DuplicateEmail;
      }
    }
    assert admission == Admission(data, store.rows);
    match admission
    case NoJson => return BadRequest("No JSON received");
    case FieldError => return ServerError;
    case MissingFields => return BadRequest("Missing required fields");
    case DuplicateEmail => return BadRequest("Duplicate email");
    case Admit(name, email, phone, birthDay, birthMonth) =>
      var emailSuccess, smsSuccess := Register(store, mailer, sms, name, email, phone, birthDay, birthMonth,
                                               today, env, pdfPath, files);
      return Registered(emailSuccess, smsSuccess);
  }

  /** The admitted part of `signup`: allocate a code, insert the row with both
      flags 0, send the welcome email (when the PDF exists) and SMS, then
      write their outcomes into the row. */
  method Register(store: UserStore, mailer: Mailer.MailerSendClient, sms: Sms.CellCastClient,
                  name: string, email: string, phone: string, birthDay: int, birthMonth: int,
                  today: Date, env: map<string, string>,
                  pdfPath: Option<string>, files: map<string, Mailer.FileState>)
    returns (emailSuccess: bool, smsSuccess: bool)
    requires store.Valid() && Valid(today)
    modifies store, mailer.api, sms.api
    ensures store.Valid()
    ensures store.nextId == old(store.nextId) + 1
    ensures store.rows == old(store.rows) + [Row(old(store.nextId), name, birthDay, birthMonth, today, email, phone,
                                                 if emailSuccess then 1 else 0, if smsSuccess then 1 else 0,
                                                 Some(Services.NextVoucherCode(Codes(old(store.rows)))))]
    ensures (!Truthy(pdfPath) || Mailer.AttachmentStep(pdfPath, files).AttachFailed?) ==>
      !emailSuccess && mailer.api.posted == old(mailer.api.posted)
    ensures Truthy(pdfPath) && !Mailer.AttachmentStep(pdfPath, files).AttachFailed? ==>
      var oks := Mailer.Verdicts(old(mailer.api.pending));
      && emailSuccess == Http.FirstSuccess(oks, Mailer.DefaultRetries).Some?
      && mailer.api.posted == old(mailer.api.posted)
           + Http.Repeat(WelcomeEmail(mailer, env, name, email, pdfPath, files), Http.Attempts(oks, Mailer.DefaultRetries))
    ensures smsSuccess == Http.FirstSuccess(Sms.Verdicts(old(sms.api.pending)), Sms.DefaultRetries).Some?
    ensures sms.api.posted == old(sms.api.posted)
      + Http.Repeat(WelcomeSms(sms, env, name, phone, Services.NextVoucherCode(Codes(old(store.rows)))),
                    Http.Attempts(Sms.Verdicts(old(sms.api.pending)), Sms.DefaultRetries))
  {
    var code := Services.NextVoucherCode(Codes(store.rows));
    ghost var rows0 := store.rows;
    var userId := store.Insert(name, birthDay, birthMonth, today, email, phone, code);
    ghost var inserted := store.rows;
    emailSuccess, smsSuccess := SendWelcome(mailer, sms, name, email, phone, code, env, pdfPath, files);
    assert store.rows == inserted;
    store.UpdateFlags(userId, if emailSuccess then 1 else 0, if smsSuccess then 1 else 0);
    FlagsOfNewRow(rows0, inserted[|rows0|], if emailSuccess then 1 else 0, if smsSuccess then 1 else 0);
  }

  /** Setting the flags of the row just inserted, whose id is above all
      others, changes that row only. */
  lemma FlagsOfNewRow(rows: seq<Row>, row: Row, emailSent: int, smsSent: int)
    requires forall k :: 0 <= k < |rows| ==> rows[k].id < row.id
    ensures SetFlags(rows + [row], row.id, emailSent, smsSent)
         == rows + [row.(emailSent := emailSent, smsSent := smsSent)]
  {
  }

  /** The welcome email of `signup` to the new customer, with the voucher PDF. */
  function WelcomeEmail(mailer: Mailer.MailerSendClient, env: map<string, string>, name: string, email: string,
                        pdfPath: Option<string>, files: map<string, Mailer.FileState>): Mailer.EmailPayload {
    Mailer.PayloadFor(mailer.senderEmail, email, name, Some(GetenvOr(env, "MAILERSEND_WELCOME_TEMPLATE_ID", "")),
                      Mailer.AttachmentStep(pdfPath, files))
  }

  /** The welcome SMS of `signup`, carrying the voucher's image URL. */
  function WelcomeSms(sms: Sms.CellCastClient, env: map<string, string>, name: string, phone: string,
                      code: string): Sms.SmsPayload {
    Sms.PayloadFor(Some(GetenvOr(env, "CELLCAST_WELCOME_TEMPLATE_ID", "")),
                   [Sms.Recipient(phone, name, ImageUrl(Some(code)))],
                   sms.senderId, sms.source, sms.customString, None, None)
  }

  /** The welcome messages of `signup`: the email with the voucher PDF only
      when one was produced, and the SMS with the voucher image. */
  method SendWelcome(mailer: Mailer.MailerSendClient, sms: Sms.CellCastClient,
                     name: string, email: string, phone: string, code: string, env: map<string, string>,
                     pdfPath: Option<string>, files: map<string, Mailer.FileState>)
    returns (emailSuccess: bool, smsSuccess: bool)
    modifies mailer.api, sms.api
    ensures !Truthy(pdfPath) ==> !emailSuccess && mailer.api.posted == old(mailer.api.posted)
    ensures Truthy(pdfPath) && Mailer.AttachmentStep(pdfPath, files).AttachFailed? ==>
      !emailSuccess && mailer.api.posted == old(mailer.api.posted)
    ensures Truthy(pdfPath) && !Mailer.AttachmentStep(pdfPath, files).AttachFailed? ==>
      var oks := Mailer.Verdicts(old(mailer.api.pending));
      && emailSuccess == Http.FirstSuccess(oks, Mailer.DefaultRetries).Some?
      && mailer.api.posted == old(mailer.api.posted)
           + Http.Repeat(WelcomeEmail(mailer, env, name, email, pdfPath, files), Http.Attempts(oks, Mailer.DefaultRetries))
    ensures smsSuccess == Http.FirstSuccess(Sms.Verdicts(old(sms.api.pending)), Sms.DefaultRetries).Some?
    ensures sms.api.posted == old(sms.api.posted)
      + Http.Repeat(WelcomeSms(sms, env, name, phone, code),
                    Http.Attempts(Sms.Verdicts(old(sms.api.pending)), Sms.DefaultRetries))
  {
    emailSuccess := false;
    if Truthy(pdfPath) {
      emailSuccess := mailer.SendEmail(email, name, Some(GetenvOr(env, "MAILERSEND_WELCOME_TEMPLATE_ID", "")),
                                       pdfPath, files, Mailer.DefaultRetries, Mailer.DefaultBackoffFactor);
    }
    smsSuccess := sms.SendSmsTemplate(Some(GetenvOr(env, "CELLCAST_WELCOME_TEMPLATE_ID", "")),
                                      [Sms.Recipient(phone, name, ImageUrl(Some(code)))], None, None,
                                      Sms.DefaultRetries, Sms.DefaultBackoffFactor);
  }

  /** A signup stores a code whose suffix is above every stored suffix, so
      stored suffixes stay pairwise distinct while none is at the ceiling. */
  lemma SignupKeepsDistinct(rows: seq<Row>, row: Row)
    requires DistinctSuffixes(rows)
    requires row.voucherCode == Some(Services.NextVoucherCode(Codes(rows)))
    ensures Headroom(rows, 0) ==> DistinctSuffixes(rows + [row])
  {
    if Headroom(rows, 0) {
      FreshCodeFits(rows, 0);
      var r := rows + [row];
      forall j, k | 0 <= j < |r| && 0 <= k < |r| && j != k && r[j].voucherCode.Some? && r[k].voucherCode.Some?
        ensures Services.Suffix(r[j].voucherCode.value) != Services.Suffix(r[k].voucherCode.value)
      {
        if j < |rows| && k < |rows| {
          assert r[j] == rows[j] && r[k] == rows[k];
        }
      }
    }
  }
}
