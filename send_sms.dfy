/** CellCastClient.send_sms_template of send_sms.py: build the JSON payload,
    adding each optional key only when its value is truthy, then POST with
    bounded retries and exponential backoff; an attempt succeeds only when the
    HTTP status is 200 AND the body's `meta.code` is 200. */
module Sms {
  import opened Common
  import opened Http

  const DefaultRetries: int := 3
  const DefaultBackoffFactor: int := 2

  /** One entry of `numbers`: the merge fields every caller sends. */
  datatype Recipient = Recipient(number: string, fname: string, customValue1: string)

  /** The JSON body sent to CellCast; an optional key that is absent is None. */
  datatype SmsPayload = SmsPayload(
    templateId: Option<string>,
    numbers: seq<Recipient>,
    from: Option<string>,
    source: Option<string>,
    customString: Option<string>,
    scheduleTime: Option<string>,
    delay: Option<int>)

  /** A truthy value becomes the key's value; anything else leaves it out. */
  function KeepIfTruthy(s: Option<string>): Option<string> {
    if Truthy(s) then s else None
  }

  function PayloadFor(templateId: Option<string>, numbers: seq<Recipient>,
                      senderId: Option<string>, source: Option<string>, customString: Option<string>,
                      scheduleTime: Option<string>, delay: Option<int>): SmsPayload
  {
    SmsPayload(templateId, numbers, KeepIfTruthy(senderId), KeepIfTruthy(source),
               KeepIfTruthy(customString), KeepIfTruthy(scheduleTime),
               if TruthyInt(delay) then delay else None)
  }

  /** `template_id` and `numbers` are always there; every optional key is
      present exactly when its value is truthy, with that value (so a delay of
      0 is left out). */
  lemma PayloadKeys(templateId: Option<string>, numbers: seq<Recipient>,
                    senderId: Option<string>, source: Option<string>, customString: Option<string>,
                    scheduleTime: Option<string>, delay: Option<int>)
    ensures var p := PayloadFor(templateId, numbers, senderId, source, customString, scheduleTime, delay);
      && p.templateId == templateId && p.numbers == numbers
      && (p.from.Some? <==> Truthy(senderId)) && (p.from.Some? ==> p.from == senderId)
      && (p.source.Some? <==> Truthy(source)) && (p.source.Some? ==> p.source == source)
      && (p.customString.Some? <==> Truthy(customString)) && (p.customString.Some? ==> p.customString == customString)
      && (p.scheduleTime.Some? <==> Truthy(scheduleTime)) && (p.scheduleTime.Some? ==> p.scheduleTime == scheduleTime)
      && (p.delay.Some? <==> TruthyInt(delay)) && (p.delay.Some? ==> p.delay == delay)
      && (delay == Some(0) ==> p.delay.None?)
  {
  }

  /** CellCast accepted the request: HTTP 200 and `meta.code` 200. */
  predicate Accepted(r: Response) {
    r.Response? && r.status == 200 && r.metaCode == Some(200)
  }

  function Verdicts(rs: seq<Response>): (oks: seq<bool>)
    ensures forall i: nat :: Succeeds(oks, i) <==> Accepted(ResponseAt(rs, i))
  {
    seq(|rs|, i requires 0 <= i < |rs| => Accepted(rs[i]))
  }

  /** An HTTP 200 whose body reports any other code is a failed attempt, and
      so is a transport exception: the loop goes on to the next attempt. */
  lemma OkStatusIsNotEnough(rs: seq<Response>, retries: int)
    requires 1 < retries && |rs| >= 1 && rs[0].Response? && rs[0].status == 200
    requires rs[0].metaCode != Some(200)
    ensures Attempts(Verdicts(rs), retries) >= 2
  {
    var oks := Verdicts(rs);
    assert !Succeeds(oks, 0);
  }

  class CellCastClient {
    const appKey: string
    const senderId: Option<string>
    const source: Option<string>
    const customString: Option<string>
    /** The CellCast endpoint `https://cellcast.com.au/api/v3/send-sms-template`. */
    const api: Channel<SmsPayload>

    constructor (appKey: string, senderId: Option<string>, source: Option<string>,
                 customString: Option<string>, api: Channel<SmsPayload>)
      ensures this.appKey == appKey && this.senderId == senderId && this.source == source
      ensures this.customString == customString && this.api == api
    {
      this.appKey := appKey;
      this.senderId := senderId;
      this.source := source;
      this.customString := customString;
      this.api := api;
    }

    /** The payload of send_sms_template: `template_id` and `numbers`, then
        each optional key added in turn when its value is truthy. */
    method BuildPayload(templateId: Option<string>, numbers: seq<Recipient>,
                        scheduleTime: Option<string>, delay: Option<int>) returns (payload: SmsPayload)
      ensures payload == PayloadFor(templateId, numbers, senderId, source, customString, scheduleTime, delay)
    {
      payload := SmsPayload(templateId, numbers, None, None, None, None, None);
      if Truthy(senderId) {
        payload := payload.(from := senderId);
      }
      if Truthy(source) {
        payload := payload.(source := source);
      }
      if Truthy(customString) {
        payload := payload.(customString := customString);
      }
      if Truthy(scheduleTime) {
        payload := payload.(scheduleTime := scheduleTime);
      }
      if TruthyInt(delay) {
        payload := payload.(delay := delay);
      }
    }

    /** send_sms_template: POSTs the payload until CellCast accepts it, at
        most `retries` times, sleeping `backoff_factor ** attempt` after each
        failure; nothing is sent when `retries <= 0`. */
    method SendSmsTemplate(templateId: Option<string>, numbers: seq<Recipient>,
                           scheduleTime: Option<string>, delay: Option<int>,
                           retries: int, backoffFactor: int) returns (ok: bool)
      requires backoffFactor >= 0
      modifies api
      ensures var oks := Verdicts(old(api.pending));
        var n := Attempts(oks, retries);
        && ok == FirstSuccess(oks, retries).Some?
        && api.posted == old(api.posted)
             + Repeat(PayloadFor(templateId, numbers, senderId, source, customString, scheduleTime, delay), n)
        && api.pending == Drop(old(api.pending), n)
        && api.sleeps == old(api.sleeps) + Backoffs(backoffFactor, FailedAttempts(oks, retries))
    {
      var payload := BuildPayload(templateId, numbers, scheduleTime, delay);
      ghost var rs := api.pending;
      ghost var oks := Verdicts(rs);
      var attempt := 1;
      while attempt <= retries
        invariant 1 <= attempt <= (if retries >= 1 then retries + 1 else 1)
        invariant forall j :: 0 <= j < attempt - 1 ==> !Succeeds(oks, j)
        invariant api.pending == Drop(rs, attempt - 1)
        invariant api.posted == old(api.posted) + Repeat(payload, attempt - 1)
        invariant api.sleeps == old(api.sleeps) + Backoffs(backoffFactor, attempt - 1)
      {
        DropStep(rs, attempt - 1);
        var response := api.Post(payload);
        if response.Response? && response.status == 200 {
          if response.metaCode == Some(200) {
            FirstSuccessAt(oks, attempt - 1, retries);
            assert Repeat(payload, attempt - 1) + [payload] == Repeat(payload, attempt);
            return true;
          }
        }
        PowNonNegative(backoffFactor, attempt);
        api.Sleep(Pow(backoffFactor, attempt));
        assert Repeat(payload, attempt - 1) + [payload] == Repeat(payload, attempt);
        assert Backoffs(backoffFactor, attempt - 1) + [Pow(backoffFactor, attempt)]
            == Backoffs(backoffFactor, attempt);
        attempt := attempt + 1;
      }
      assert FirstSuccess(oks, retries).None?;
      assert Attempts(oks, retries) == attempt - 1;
      return false;
    }
  }
}
