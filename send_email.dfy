/** MailerSendClient.send_email of send_email.py: build the JSON payload,
    attach the voucher PDF when a path is given (returning False at once when
    it cannot be read), then POST with bounded retries and exponential
    backoff, succeeding on the first 2xx status. */
module Mailer {
  import opened Common
  import opened Http

  const DefaultRetries: int := 3
  const DefaultBackoffFactor: int := 2

  /** One attachment entry; `content` holds the file's bytes, which the
      source sends base64-encoded. */
  datatype Attachment = Attachment(filename: string, content: seq<bv8>, disposition: string)

  /** A `{"var": ..., "value": ...}` substitution. */
  datatype Substitution = Substitution(name: string, value: string)

  datatype Variables = Variables(email: string, substitutions: seq<Substitution>)

  /** The JSON body sent to MailerSend; `attachments` is None when the key is absent. */
  datatype EmailPayload = EmailPayload(
    fromEmail: string,
    fromName: string,
    to: seq<string>,
    subject: string,
    templateId: Option<string>,
    variables: seq<Variables>,
    attachments: Option<seq<Attachment>>)

  /** What the file system has at a path: nothing, a file that cannot be
      opened or read, or the file's bytes. */
  datatype FileState = Missing | Unreadable | Readable(bytes: seq<bv8>)

  function FileAt(files: map<string, FileState>, path: string): FileState {
    if path in files then files[path] else Missing
  }

  /** `os.path.basename`: the text after the last '/'. */
  function Basename(path: string): (r: string)
    ensures '/' !in r
    ensures |r| <= |path| && r == path[|path| - |r|..]
    ensures |r| < |path| ==> path[|path| - |r| - 1] == '/'
  {
    if path == [] || path[|path| - 1] == '/' then []
    else Basename(path[..|path| - 1]) + [path[|path| - 1]]
  }

  /** The outcome of the attachment step. */
  datatype AttachStep = NoAttachment | Attach(attachment: Attachment) | AttachFailed

  function AttachmentStep(path: Option<string>, files: map<string, FileState>): AttachStep {
    if !Truthy(path) then NoAttachment
    else match FileAt(files, path.value)
      case Readable(bytes) => Attach(Attachment(Basename(path.value), bytes, "attachment"))
      case _ => AttachFailed
  }

  /** The payload before any attachment is added. */
  function BasePayload(sender: string, recipient: string, name: string, templateId: Option<string>): EmailPayload {
    EmailPayload(sender, "Third Wave Cafe", [recipient], "Your Birthday Voucher", templateId,
                 [Variables(recipient, [Substitution("username", name)])], None)
  }

  /** The payload that is posted when the attachment step did not fail. */
  function PayloadFor(sender: string, recipient: string, name: string, templateId: Option<string>,
                      step: AttachStep): EmailPayload
  {
    var base := BasePayload(sender, recipient, name, templateId);
    if step.Attach? then base.(attachments := Some([step.attachment])) else base
  }

  /** MailerSend accepted the request: any 2xx status. */
  predicate Accepted(r: Response) {
    r.Response? && 200 <= r.status < 300
  }

  function Verdicts(rs: seq<Response>): (oks: seq<bool>)
    ensures forall i: nat :: Succeeds(oks, i) <==> Accepted(ResponseAt(rs, i))
  {
    seq(|rs|, i requires 0 <= i < |rs| => Accepted(rs[i]))
  }

  /** The payload names the template, carries the recipient both in `to` and
      in `variables`, binds `username` to the recipient's name, and has an
      `attachments` key exactly when a path was given and its file was read. */
  lemma PayloadContents(sender: string, recipient: string, name: string, templateId: Option<string>,
                        path: Option<string>, files: map<string, FileState>)
    requires !AttachmentStep(path, files).AttachFailed?
    ensures var p := PayloadFor(sender, recipient, name, templateId, AttachmentStep(path, files));
      && p.templateId == templateId
      && p.to == [recipient] && |p.variables| == 1 && p.variables[0].email == recipient
      && Substitution("username", name) in p.variables[0].substitutions
      && (p.attachments.Some? <==> Truthy(path) && FileAt(files, path.value).Readable?)
      && (p.attachments.Some? ==> p.attachments.value[0].content == FileAt(files, path.value).bytes)
  {
  }

  /** A given path whose file is missing or unreadable fails the step. */
  lemma AttachmentGuard(path: Option<string>, files: map<string, FileState>)
    ensures AttachmentStep(path, files).AttachFailed?
        <==> Truthy(path) && !FileAt(files, path.value).Readable?
  {
  }

  class MailerSendClient {
    const apiKey: string
    const senderEmail: string
    /** The MailerSend endpoint `https://api.mailersend.com/v1/email`. */
    const api: Channel<EmailPayload>

    constructor (apiKey: string, senderEmail: string, api: Channel<EmailPayload>)
      ensures this.apiKey == apiKey && this.senderEmail == senderEmail && this.api == api
    {
      this.apiKey := apiKey;
      this.senderEmail := senderEmail;
      this.api := api;
    }

    /** send_email: False with no POST when the attachment cannot be read;
        otherwise POSTs the payload until the first 2xx, at most `retries`
        times, sleeping `backoff_factor ** attempt` after each failure. */
    method SendEmail(recipientEmail: string, recipientName: string, templateId: Option<string>,
                     attachmentPath: Option<string>, files: map<string, FileState>,
                     retries: int, backoffFactor: int) returns (ok: bool)
      requires backoffFactor >= 0
      modifies api
      ensures AttachmentStep(attachmentPath, files).AttachFailed? ==>
        && !ok
        && api.pending == old(api.pending) && api.posted == old(api.posted)
        && api.sleeps == old(api.sleeps)
      ensures !AttachmentStep(attachmentPath, files).AttachFailed? ==>
        var oks := Verdicts(old(api.pending));
        var n := Attempts(oks, retries);
        && ok == FirstSuccess(oks, retries).Some?
        && api.posted == old(api.posted)
             + Repeat(PayloadFor(senderEmail, recipientEmail, recipientName, templateId,
                                 AttachmentStep(attachmentPath, files)), n)
        && api.pending == Drop(old(api.pending), n)
        && api.sleeps == old(api.sleeps) + Backoffs(backoffFactor, FailedAttempts(oks, retries))
    {
      var payload := BasePayload(senderEmail, recipientEmail, recipientName, templateId);
      if Truthy(attachmentPath) {
        var file := FileAt(files, attachmentPath.value);
        if file.Readable? {
          payload := payload.(attachments :=
            Some([Attachment(Basename(attachmentPath.value), file.bytes, "attachment")]));
        } else {
          return false;
        }
      }
      assert payload == PayloadFor(senderEmail, recipientEmail, recipientName, templateId,
                                   AttachmentStep(attachmentPath, files));
      ok := Deliver(payload, retries, backoffFactor);
    }

    /** The retry loop of send_email: POST until the first 2xx, at most
        `retries` times, sleeping `backoff_factor ** attempt` after each
        failed attempt (the last one included). */
    method Deliver(payload: EmailPayload, retries: int, backoffFactor: int) returns (ok: bool)
      requires backoffFactor >= 0
      modifies api
      ensures var oks := Verdicts(old(api.pending));
        var n := Attempts(oks, retries);
        && ok == FirstSuccess(oks, retries).Some?
        && api.posted == old(api.posted) + Repeat(payload, n)
        && api.pending == Drop(old(api.pending), n)
        && api.sleeps == old(api.sleeps) + Backoffs(backoffFactor, FailedAttempts(oks, retries))
    {
      ghost var rs := api.pending;
      ghost var oks := Verdicts(rs);
      var attempt := 1;
      while attempt <= retries
        invariant 1 <= attempt <= (if retries >= 1 then retries + 1 else 1)
        invariant forall j :: 0 <= j < attempt - 1 ==> !Succeeds(oks, j)
        invariant api.pending == Drop(rs, attempt - 1)
        invariant api.posted == old(api.posted) + Repeat(payload, attempt - 1)
        invariant api.sleeps == old(api.sleeps) + Backoffs(backoffFactor, attempt - 1)
      {
        DropStep(rs, attempt - 1);
        var response := api.Post(payload);
        if response.Response? && 200 <= response.status < 300 {
          FirstSuccessAt(oks, attempt - 1, retries);
          assert Repeat(payload, attempt - 1) + [payload] == Repeat(payload, attempt);
          return true;
        }
        PowNonNegative(backoffFactor, attempt);
        api.Sleep(Pow(backoffFactor, attempt));
        assert Repeat(payload, attempt - 1) + [payload] == Repeat(payload, attempt);
        assert Backoffs(backoffFactor, attempt - 1) + [Pow(backoffFactor, attempt)]
            == Backoffs(backoffFactor, attempt);
        attempt := attempt + 1;
      }
      assert FirstSuccess(oks, retries).None?;
      assert Attempts(oks, retries) == attempt - 1;
      return false;
    }
  }
}
