/** The birthday webhook of webhook_app.py: an authenticated POST that sends
    a voucher by email (with the PDF) and by SMS, after checking the formats
    of the address and the phone number, and picking message templates by
    `templateType`. */
module Webhook {
  import opened Common
  import opened Request
  import Http
  import Mailer
  import Sms

  predicate IsAsciiLetter(c: char) {
    'A' <= c <= 'Z' || 'a' <= c <= 'z'
  }

  /** `\w`, restricted to ASCII. */
  predicate IsWordChar(c: char) {
    IsAsciiLetter(c) || IsDigit(c) || c == '_'
  }

  // ------------------------------------------------------------- the phone

  /** `61` followed by exactly nine digits. */
  predicate NationalNumber(t: string) {
    |t| == 11 && t[0] == '6' && t[1] == '1' && forall i :: 2 <= i < 11 ==> IsDigit(t[i])
  }

  /** `re.match(r'^\+?61\d{9}$', phone)`: an optional '+', then the national
      number, then the end of the string or a final newline (which `$` also
      accepts). */
  predicate IsValidPhone(phone: string) {
    var t := if |phone| > 0 && phone[0] == '+' then phone[1..] else phone;
    NationalNumber(t) || (|t| == 12 && t[11] == '\n' && NationalNumber(t[..11]))
  }

  predicate AllAsciiDigits(s: string) {
    forall i :: 0 <= i < |s| ==> IsDigit(s[i])
  }

  /** A phone number with no trailing white space (every stripped input) is
      valid exactly when it is "61" or "+61" followed by nine digits. */
  lemma PhoneShape(phone: string)
    requires phone == [] || !IsSpace(phone[|phone| - 1])
    ensures IsValidPhone(phone) <==>
      || (|phone| == 11 && phone[..2] == "61" && AllAsciiDigits(phone[2..]))
      || (|phone| == 12 && phone[..3] == "+61" && AllAsciiDigits(phone[3..]))
  {
    if |phone| == 11 && phone[..2] == "61" && AllAsciiDigits(phone[2..]) {
      assert forall i :: 2 <= i < 11 ==> phone[i] == phone[2..][i - 2];
    }
    if |phone| == 12 && phone[..3] == "+61" && AllAsciiDigits(phone[3..]) {
      assert forall i :: 2 <= i < 11 ==> phone[1..][i] == phone[3..][i - 2];
    }
  }

  /** The `$` of the pattern also lets a final newline through, which only
      the `strip()` before the check keeps out. */
  lemma PhoneWithFinalNewline()
    ensures IsValidPhone("61412345678\n")
    ensures !IsValidPhone("61412345678 ")
    ensures !IsValidPhone("6141234567")
  {
    assert NationalNumber("61412345678\n"[..11]);
  }

  // ------------------------------------------------------------- the email

  predicate LocalChar(c: char) {
    IsAsciiLetter(c) || IsDigit(c) || c == '.' || c == '_' || c == '%' || c == '+' || c == '-'
  }

  predicate DomainChar(c: char) {
    IsAsciiLetter(c) || IsDigit(c) || c == '.' || c == '-'
  }

  /** `[A-Z|a-z]`: the '|' is a literal member of the class. */
  predicate TldChar(c: char) {
    IsAsciiLetter(c) || c == '|'
  }

  /** `\b` at position i: a word character on exactly one side. */
  predicate Boundary(s: string, i: int)
    requires 0 <= i <= |s|
  {
    (0 < i && IsWordChar(s[i - 1])) != (i < |s| && IsWordChar(s[i]))
  }

  /** One way `^\b[A-Za-z0-9._%+-]+@[A-Za-z0-9.-]+\.[A-Z|a-z]{2,}\b` matches
      a prefix of s: the '@' at `at`, the last '.' of the pattern at `dot`,
      and the match ending at `end`. */
  predicate EmailMatch(s: string, at: int, dot: int, end: int)
    requires 0 <= at < dot < end <= |s|
  {
    && Boundary(s, 0)
    && 0 < at && (forall j :: 0 <= j < at ==> LocalChar(s[j]))
    && s[at] == '@'
    && at + 1 < dot && (forall j :: at < j < dot ==> DomainChar(s[j]))
    && s[dot] == '.'
    && dot + 3 <= end && (forall j :: dot < j < end ==> TldChar(s[j]))
    && Boundary(s, end)
  }

  /** `re.match(regex, email)`: some way of matching a prefix exists (the
      pattern has no end anchor). */
  predicate IsValidEmail(email: string) {
    exists at, dot, end | 0 <= at < dot < end <= |email| :: EmailMatch(email, at, dot, end)
  }

  /** An accepted address starts with a letter, a digit or '_', has an '@'
      after one or more local characters, and a '.' after it. */
  lemma EmailShape(email: string)
    requires IsValidEmail(email)
    ensures |email| >= 6
    ensures IsAsciiLetter(email[0]) || IsDigit(email[0]) || email[0] == '_'
    ensures exists at :: 0 < at < |email| && email[at] == '@' && '.' in email[at + 1..]
  {
    var at, dot, end :| 0 <= at < dot < end <= |email| && EmailMatch(email, at, dot, end);
    assert email[at + 1..][dot - at - 1] == '.';
  }

  /** Text after an accepted address is ignored when it starts with a
      non-word character: "jo@cafe.com, extra" is accepted. */
  lemma EmailTrailingText(email: string, t: string)
    requires IsValidEmail(email)
    requires t == [] || !IsWordChar(t[0])
    ensures IsValidEmail(email + t)
  {
    var at, dot, end :| 0 <= at < dot < end <= |email| && EmailMatch(email, at, dot, end);
    var s := email + t;
    assert forall j :: 0 <= j < |email| ==> s[j] == email[j];
    assert Boundary(s, end);
    assert EmailMatch(s, at, dot, end);
  }

  /** A plain address is accepted. */
  lemma EmailAccepted()
    ensures IsValidEmail("jo@cafe.com")
  {
    var s := "jo@cafe.com";
    assert s[0] == 'j' && s[1] == 'o' && s[2] == '@' && s[7] == '.';
    assert forall j :: 3 <= j < 7 ==> DomainChar(s[j]);
    assert forall j :: 7 < j < 11 ==> TldChar(s[j]);
    assert EmailMatch(s, 2, 7, 11);
  }

  /** ... and so is the same address followed by other text. */
  lemma EmailAcceptedWithText()
    ensures IsValidEmail("jo@cafe.com, extra")
  {
    var e, t := "jo@cafe.com", ", extra";
    EmailAccepted();
    assert t[0] == ',';
    EmailTrailingText(e, t);
    assert e + t == "jo@cafe.com, extra";
  }

  /** A leading '.' fails the opening `\b`. */
  lemma EmailLeadingDot()
    ensures !IsValidEmail(".jo@cafe.com")
  {
  }

  /** A one-letter top-level domain is too short. */
  lemma EmailShortTld()
    ensures !IsValidEmail("jo@cafe.c")
  {
    var s := "jo@cafe.c";
    forall at, dot, end | 0 <= at < dot < end <= |s|
      ensures !EmailMatch(s, at, dot, end)
    {
      if s[dot] == '.' {
        assert dot == 7;
      }
    }
  }

  // ----------------------------------------------------------- the templates

  /** The email template of a `templateType`: the three known types each map
      to their own variable (None when it is unset, with no fallback), any
      other type to the default template. */
  function EmailTemplateFor(templateType: string, env: map<string, string>): (r: Option<string>)
    ensures templateType == "TEMPLATE_1ST_2WEEKS" ==> r == Getenv(env, "MAILERSEND_1ST_2WEEKS_ID")
    ensures templateType == "TEMPLATE_1MONTH" ==> r == Getenv(env, "MAILERSEND_NEXT_YEAR_1MONTH_ID")
    ensures templateType == "TEMPLATE_2ND_2WEEKS" ==> r == Getenv(env, "MAILERSEND_NEXT_YEAR_2WEEKS_ID")
    ensures templateType !in {"TEMPLATE_1ST_2WEEKS", "TEMPLATE_1MONTH", "TEMPLATE_2ND_2WEEKS"} ==>
      r == Getenv(env, "MAILERSEND_DEFAULT_TEMPLATE_ID")
  {
    var mapping := map[
      "TEMPLATE_1ST_2WEEKS" := Getenv(env, "MAILERSEND_1ST_2WEEKS_ID"),
      "TEMPLATE_1MONTH" := Getenv(env, "MAILERSEND_NEXT_YEAR_1MONTH_ID"),
      "TEMPLATE_2ND_2WEEKS" := Getenv(env, "MAILERSEND_NEXT_YEAR_2WEEKS_ID")];
    if templateType in mapping then mapping[templateType] else Getenv(env, "MAILERSEND_DEFAULT_TEMPLATE_ID")
  }

  /** The SMS template of a `templateType`, on the same pattern. */
  function SmsTemplateFor(templateType: string, env: map<string, string>): (r: Option<string>)
    ensures templateType == "TEMPLATE_1ST_2WEEKS" ==> r == Getenv(env, "CELLCAST_1ST_2WEEKS_ID")
    ensures templateType == "TEMPLATE_1MONTH" ==> r == Getenv(env, "CELLCAST_NEXT_YEAR_1MONTH_ID")
    ensures templateType == "TEMPLATE_2ND_2WEEKS" ==> r == Getenv(env, "CELLCAST_NEXT_YEAR_2WEEKS_ID")
    ensures templateType !in {"TEMPLATE_1ST_2WEEKS", "TEMPLATE_1MONTH", "TEMPLATE_2ND_2WEEKS"} ==>
      r == Getenv(env, "CELLCAST_TEMPLATE_ID")
  {
    var mapping := map[
      "TEMPLATE_1ST_2WEEKS" := Getenv(env, "CELLCAST_1ST_2WEEKS_ID"),
      "TEMPLATE_1MONTH" := Getenv(env, "CELLCAST_NEXT_YEAR_1MONTH_ID"),
      "TEMPLATE_2ND_2WEEKS" := Getenv(env, "CELLCAST_NEXT_YEAR_2WEEKS_ID")];
    if templateType in mapping then mapping[templateType] else Getenv(env, "CELLCAST_TEMPLATE_ID")
  }

  // ---------------------------------------------------------------- the gate

  /** The JSON body of a webhook call when it is a non-empty object; a
      missing body and a falsy one (null, an empty object) are None. */
  datatype WebhookData = WebhookData(name: Field, email: Field, phone: Field, voucherCode: Field, templateType: Field)

  /** Where a webhook call ends before anything is sent, or what it goes on
      to send. */
  datatype Gate =
    | Unauthorized
    | NoJson
    | FieldError
    | BothInvalid
    | MissingVoucher
    | Proceed(name: string, email: string, phone: string, voucherCode: string, templateType: string,
              sendEmail: bool, sendSms: bool)

  predicate HasFieldError(d: WebhookData) {
    d.name.NonText? || d.email.NonText? || d.phone.NonText? || d.voucherCode.NonText? || d.templateType.NonText?
  }

  /** The checks of `birthday_webhook`, in the source's order. */
  function Decide(authToken: Option<string>, secret: Option<string>, data: Option<WebhookData>): (r: Gate)
    ensures r.Unauthorized? <==> !Authorized(authToken, secret)
    ensures r.NoJson? <==> Authorized(authToken, secret) && data.None?
    ensures r.FieldError? <==> Authorized(authToken, secret) && data.Some? && HasFieldError(data.value)
    ensures (r.BothInvalid? || r.MissingVoucher? || r.Proceed?) ==>
      Authorized(authToken, secret) && data.Some? && !HasFieldError(data.value)
    ensures r.BothInvalid? || r.MissingVoucher? || r.Proceed? ==>
      var email := FieldText(data.value.email, "").value;
      var phone := FieldText(data.value.phone, "").value;
      var voucher := FieldText(data.value.voucherCode, "").value;
      && (r.BothInvalid? <==> email != "" && phone != "" && !IsValidEmail(email) && !IsValidPhone(phone))
      && (r.MissingVoucher? <==> !r.BothInvalid? && voucher == "")
      && (r.Proceed? ==>
            && r.email == email && r.phone == phone && r.voucherCode == voucher
            && r.name == FieldText(data.value.name, "").value
            && r.templateType == FieldText(data.value.templateType, "default").value
            && (r.sendEmail <==> email != "" && IsValidEmail(email))
            && (r.sendSms <==> phone != "" && IsValidPhone(phone)))
  {
    if !Truthy(authToken) || authToken != secret then Unauthorized
    else if data.None? then NoJson
    else
      var d := data.value;
      match (FieldText(d.name, ""), FieldText(d.email, ""), FieldText(d.phone, ""),
             FieldText(d.voucherCode, ""), FieldText(d.templateType, "default"))
      case (Some(name), Some(email), Some(phone), Some(voucher), Some(templateType)) =>
        var emailValid := !(email != "" && !IsValidEmail(email));
        var phoneValid := !(phone != "" && !IsValidPhone(phone));
        if email != "" && phone != "" && !(emailValid || phoneValid) then BothInvalid
        else if voucher == "" then MissingVoucher
        else Proceed(name, email, phone, voucher, templateType, email != "" && emailValid, phone != "" && phoneValid)
      case _ => FieldError
  }

  /** An unauthorised call is answered the same whatever its body. */
  lemma UnauthorizedIgnoresBody(authToken: Option<string>, secret: Option<string>, d1: Option<WebhookData>, d2: Option<WebhookData>)
    requires !Authorized(authToken, secret)
    ensures Decide(authToken, secret, d1) == Decide(authToken, secret, d2) == Unauthorized
  {
  }

  /** One address present and malformed is not a rejection on its own: with a
      voucher code, the call goes on and sends by the other channel only. */
  lemma OneInvalidChannelProceeds(authToken: Option<string>, secret: Option<string>, d: WebhookData)
    requires Authorized(authToken, secret) && !HasFieldError(d)
    requires FieldText(d.voucherCode, "").value != ""
    requires FieldText(d.email, "").value != "" && !IsValidEmail(FieldText(d.email, "").value)
    requires FieldText(d.phone, "").value == "" || IsValidPhone(FieldText(d.phone, "").value)
    ensures Decide(authToken, secret, Some(d)).Proceed?
    ensures !Decide(authToken, secret, Some(d)).sendEmail
  {
  }

  // ------------------------------------------------------------- the handler

  datatype WebhookResponse = Reply(status: int, message: string) | Success(email: bool, sms: bool)

  /** The response of a call the gate stops. */
  function Rejection(g: Gate): WebhookResponse
    requires !g.Proceed?
  {
    match g
    case Unauthorized => Reply(401, "Unauthorized.")
    case NoJson => Reply(400, "No JSON received")
    case FieldError => Reply(500, "Internal server error.")
    case BothInvalid => Reply(400, "Both email and phone formats are invalid.")
    case MissingVoucher => Reply(400, "Missing voucher code.")
  }

  /** birthday_webhook: the checks answer 401, 400 or 500 before anything is
      sent; otherwise the email (with the PDF `generate_voucher_pdf` gave as
      `pdfPath`) goes out only to a present, well-formed address, the SMS
      only to a present, well-formed number, and the answer is 200 whatever
      the sends gave. */
  method BirthdayWebhook(mailer: Mailer.MailerSendClient, sms: Sms.CellCastClient,
                         authToken: Option<string>, secret: Option<string>, data: Option<WebhookData>,
                         env: map<string, string>, pdfPath: Option<string>,
                         files: map<string, Mailer.FileState>) returns (response: WebhookResponse)
    modifies mailer.api, sms.api
    ensures var g := Decide(authToken, secret, data);
      && (!g.Proceed? ==>
            && response == Rejection(g)
            && mailer.api.posted == old(mailer.api.posted) && sms.api.posted == old(sms.api.posted))
      && (g.Proceed? ==> response.Success?)
      && (g.Proceed? && (!g.sendEmail || !Truthy(pdfPath) || Mailer.AttachmentStep(pdfPath, files).AttachFailed?) ==>
            !response.email && mailer.api.posted == old(mailer.api.posted))
      && (g.Proceed? && g.sendEmail && Truthy(pdfPath) && !Mailer.AttachmentStep(pdfPath, files).AttachFailed? ==>
            var oks := Mailer.Verdicts(old(mailer.api.pending));
            && response.email == Http.FirstSuccess(oks, Mailer.DefaultRetries).Some?
            && mailer.api.posted == old(mailer.api.posted)
                 + Http.Repeat(Mailer.PayloadFor(mailer.senderEmail, g.email, g.name,
                                                 EmailTemplateFor(g.templateType, env),
                                                 Mailer.AttachmentStep(pdfPath, files)),
                               Http.Attempts(oks, Mailer.DefaultRetries)))
      && (g.Proceed? && !g.sendSms ==> !response.sms && sms.api.posted == old(sms.api.posted))
      && (g.Proceed? && g.sendSms ==>
            var oks := Sms.Verdicts(old(sms.api.pending));
            && response.sms == Http.FirstSuccess(oks, Sms.DefaultRetries).Some?
            && sms.api.posted == old(sms.api.posted)
                 + Http.Repeat(Sms.PayloadFor(SmsTemplateFor(g.templateType, env),
                                              [Sms.Recipient(g.phone, g.name, ImageUrl(Some(g.voucherCode)))],
                                              sms.senderId, sms.source, sms.customString, None, None),
                               Http.Attempts(oks, Sms.DefaultRetries)))
  {
    var g := Decide(authToken, secret, data);
    if !Truthy(authToken) || authToken != secret {
      return Reply(401, "Unauthorized.");
    }
    if data.None? {
      return Reply(400, "No JSON received");
    }
    var d := data.value;
    if HasFieldError(d) {
      return Reply(500, "Internal server error.");
    }
    var name := FieldText(d.name, "").value;
    var email := FieldText(d.email, "").value;
    var phone := FieldText(d.phone, "").value;
    var voucherCode := FieldText(d.voucherCode, "").value;
    var templateType := FieldText(d.templateType, "default").value;

    var emailValid := true;
    var phoneValid := true;
    if email != "" && !IsValidEmail(email) {
      emailValid := false;
    }
    if phone != "" && !IsValidPhone(phone) {
      phoneValid := false;
    }
    if email != "" && phone != "" && !(emailValid || phoneValid) {
      return Reply(400, "Both email and phone formats are invalid.");
    }
    if voucherCode == "" {
      return Reply(400, "Missing voucher code.");
    }
    assert g == Proceed(name, email, phone, voucherCode, templateType,
                        email != "" && emailValid, phone != "" && phoneValid);
    var emailSuccess, smsSuccess := Dispatch(mailer, sms, g, env, pdfPath, files);
    return Success(emailSuccess, smsSuccess);
  }

  /** The sending half of birthday_webhook (webhook_app.py:125-180), once
      the checks have passed. */
  method Dispatch(mailer: Mailer.MailerSendClient, sms: Sms.CellCastClient, g: Gate,
                  env: map<string, string>, pdfPath: Option<string>,
                  files: map<string, Mailer.FileState>) returns (emailSuccess: bool, smsSuccess: bool)
    requires g.Proceed?
    modifies mailer.api, sms.api
    ensures (!g.sendEmail || !Truthy(pdfPath) || Mailer.AttachmentStep(pdfPath, files).AttachFailed?) ==>
      !emailSuccess && mailer.api.posted == old(mailer.api.posted)
    ensures g.sendEmail && Truthy(pdfPath) && !Mailer.AttachmentStep(pdfPath, files).AttachFailed? ==>
      var oks := Mailer.Verdicts(old(mailer.api.pending));
      && emailSuccess == Http.FirstSuccess(oks, Mailer.DefaultRetries).Some?
      && mailer.api.posted == old(mailer.api.posted)
           + Http.Repeat(Mailer.PayloadFor(mailer.senderEmail, g.email, g.name,
                                           EmailTemplateFor(g.templateType, env),
                                           Mailer.AttachmentStep(pdfPath, files)),
                         Http.Attempts(oks, Mailer.DefaultRetries))
    ensures !g.sendSms ==> !smsSuccess && sms.api.posted == old(sms.api.posted)
    ensures g.sendSms ==>
      var oks := Sms.Verdicts(old(sms.api.pending));
      && smsSuccess == Http.FirstSuccess(oks, Sms.DefaultRetries).Some?
      && sms.api.posted == old(sms.api.posted)
           + Http.Repeat(Sms.PayloadFor(SmsTemplateFor(g.templateType, env),
                                        [Sms.Recipient(g.phone, g.name, ImageUrl(Some(g.voucherCode)))],
                                        sms.senderId, sms.source, sms.customString, None, None),
                         Http.Attempts(oks, Sms.DefaultRetries))
  {
    emailSuccess := false;
    smsSuccess := false;
    if g.sendEmail && Truthy(pdfPath) {
      emailSuccess := mailer.SendEmail(g.email, g.name, EmailTemplateFor(g.templateType, env), pdfPath, files,
                                       Mailer.DefaultRetries, Mailer.DefaultBackoffFactor);
    }
    if g.sendSms {
      var smsTemplateId := SmsTemplateFor(g.templateType, env);
      smsSuccess := sms.SendSmsTemplate(smsTemplateId, [Sms.Recipient(g.phone, g.name, ImageUrl(Some(g.voucherCode)))],
                                        None, None, Sms.DefaultRetries, Sms.DefaultBackoffFactor);
    }
  }
}
