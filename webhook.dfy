/**
 * The checkout webhook of index.js: `handler` (lines 22-91), `saveUserData`
 * (lines 94-138) and `sendEmail` (lines 141-157).
 *
 * Stripe's signature check is an input (`Verification`), the DynamoDB put
 * is `UserTable.Put` with an oracle flag saying whether the service accepts
 * it, and SendGrid is `Mailer`, whose `script` says how each send ends, in
 * the order the sends happen (a send beyond the script is delivered).  The
 * spec functions `SaveSpec` and `WebhookSpec` give the store, the mail
 * attempted and the completion of a call; the methods are proved to follow
 * them and the lemmas state what the workflow promises.
 */
module Webhook {
  import opened Base
  import opened CheckoutSession

  const CheckoutCompleted := "checkout.session.completed"
  const Received := "Event received correctly."
  const UserTemplate := "d-d5482eab7c304461af455d8456e8521d"
  const CompanyTemplate := "d-03d6e5f6f39f443ea1e4c51766896f05"
  const FailureTemplate := "d-d9e9e50b811e4970a74f91c446058f85"
  const ErrorTemplate := "d-58b12e8a1b6e47419f6b282c63360b6b"

  /** The error saveUserData throws after reporting a failure. */
  const SaveError := JsError("Error saving user data.", None)

  datatype StripeEvent = StripeEvent(eventType: string, session: Session)

  /** What stripe.webhooks.constructEvent gives: the event, or the error it throws. */
  datatype Verification = Rejected(error: JsError) | Verified(event: StripeEvent)

  datatype TemplateData =
    | UserInfo(userName: JsValue, userEmail: JsValue)
    | ErrorInfo(errorDate: string, errorMessage: string)

  /** The message sendEmail hands to SendGrid. */
  datatype Mail = Mail(to: JsValue, from: JsValue, templateId: string, data: TemplateData)

  datatype SendResult = Delivered | SendFailed(error: JsError)

  /** How the handler's promise settles. */
  datatype Completion = Returned(statusCode: int, body: string) | Threw(error: JsError)

  /** The error the `n`-th send of an invocation throws, if any. */
  function SendError(script: seq<SendResult>, n: nat): Option<JsError> {
    if n < |script| && script[n].SendFailed? then Some(script[n].error) else None
  }

  /** `err.statusCode || 400`: an absent or zero status code gives 400. */
  function StatusOr400(code: Option<int>): (r: int)
    ensures r != 0
    ensures code.Some? && code.value != 0 ==> r == code.value
    ensures !(code.Some? && code.value != 0) ==> r == 400
  {
    if code.Some? && code.value != 0 then code.value else 400
  }

  function UserMail(u: UserData, company: JsValue): Mail {
    Mail(u.email, company, UserTemplate, UserInfo(u.nombreDelAlumno, u.email))
  }

  function CompanyMail(u: UserData, company: JsValue): Mail {
    Mail(company, company, CompanyTemplate, UserInfo(u.nombreDelAlumno, u.email))
  }

  function FailureMail(u: UserData, company: JsValue): Mail {
    Mail(company, company, FailureTemplate, UserInfo(u.nombreDelAlumno, u.email))
  }

  function ErrorMail(company: JsValue, date: string, message: string): Mail {
    Mail(company, company, ErrorTemplate, ErrorInfo(date, message))
  }

  // ---------------------------------------------------------------------
  // The services
  // ---------------------------------------------------------------------

  /** The users table, keyed by email. */
  class UserTable {
    var items: map<string, UserData>

    constructor(initial: map<string, UserData>)
      ensures items == initial
    {
      items := initial;
    }

    /**
     * An unconditional put of `item` under its email.  It succeeds when the
     * service accepts it and the key is a string; otherwise nothing is
     * written.
     */
    method Put(item: UserData, accepted: bool) returns (ok: bool)
      modifies this
      ensures ok == (accepted && item.email.Str?)
      ensures items == if ok then old(items)[item.email.s := item] else old(items)
    {
      ok := accepted && item.email.Str?;
      if ok {
        items := items[item.email.s := item];
      }
    }
  }

  /** SendGrid: every message handed to it, and how the sends of this invocation end. */
  class Mailer {
    var sent: seq<Mail>
    const script: seq<SendResult>

    constructor(script: seq<SendResult>)
      ensures sent == [] && this.script == script
    {
      sent := [];
      this.script := script;
    }

    /** sgMail.send: the message is attempted, and the script says whether it throws. */
    method Send(mail: Mail) returns (error: Option<JsError>)
      modifies this
      ensures sent == old(sent) + [mail]
      ensures error == SendError(script, |old(sent)|)
    {
      error := SendError(script, |sent|);
      sent := sent + [mail];
    }
  }

  // ---------------------------------------------------------------------
  // Specification of saveUserData and handler
  // ---------------------------------------------------------------------

  /** The store, the mail attempted and what saveUserData throws. */
  datatype Saved = Saved(items: map<string, UserData>, mails: seq<Mail>, thrown: Option<JsError>)

  /** The catch block of saveUserData: the failure email, then its own error or SaveError. */
  function SaveFailed(u: UserData, company: JsValue, items: map<string, UserData>, tried: seq<Mail>,
                      script: seq<SendResult>, k: nat): Saved
  {
    var e := SendError(script, k);
    Saved(items, tried + [FailureMail(u, company)], if e.Some? then e else Some(SaveError))
  }

  /** saveUserData(u), its sends starting at position `start` of the script. */
  function SaveSpec(u: UserData, company: JsValue, items: map<string, UserData>,
                    script: seq<SendResult>, start: nat, accepted: bool): Saved
  {
    if !(accepted && u.email.Str?) then SaveFailed(u, company, items, [], script, start)
    else
      var stored := items[u.email.s := u];
      if SendError(script, start).Some? then SaveFailed(u, company, stored, [UserMail(u, company)], script, start + 1)
      else if SendError(script, start + 1).Some? then
        SaveFailed(u, company, stored, [UserMail(u, company), CompanyMail(u, company)], script, start + 2)
      else Saved(stored, [UserMail(u, company), CompanyMail(u, company)], None)
  }

  /** The store, the mail attempted and how the handler completes. */
  datatype Handled = Handled(items: map<string, UserData>, mails: seq<Mail>, completion: Completion)

  /** The handler's catch block for error `e`, after `mails` were attempted. */
  function ReportError(e: JsError, company: JsValue, date: string, items: map<string, UserData>,
                       mails: seq<Mail>, script: seq<SendResult>, start: nat): Handled
  {
    var failed := SendError(script, start + |mails|);
    Handled(items, mails + [ErrorMail(company, date, e.message)],
            if failed.Some? then Threw(failed.value) else Returned(StatusOr400(e.statusCode), "Webhook Error: " + e.message))
  }

  /** The try block of the handler (lines 25-61): the store, the mail attempted and the error thrown. */
  function TrySpec(v: Verification, company: JsValue, items: map<string, UserData>,
                   script: seq<SendResult>, start: nat, accepted: bool): Saved
  {
    match v
    case Rejected(e) => Saved(items, [], Some(e))
    case Verified(ev) =>
      if ev.eventType != CheckoutCompleted then Saved(items, [], None)
      else match SessionUserData(ev.session)
        case Err(e) => Saved(items, [], Some(e))
        case Ok(u) => SaveSpec(u, company, items, script, start, accepted)
  }

  /** One invocation of the handler, its sends starting at position `start` of the script. */
  function WebhookSpec(v: Verification, company: JsValue, date: string, items: map<string, UserData>,
                       script: seq<SendResult>, start: nat, accepted: bool): Handled
  {
    var t := TrySpec(v, company, items, script, start, accepted);
    if t.thrown.None? then Handled(t.items, t.mails, Returned(200, Received))
    else ReportError(t.thrown.value, company, date, t.items, t.mails, script, start)
  }

  // ---------------------------------------------------------------------
  // The code
  // ---------------------------------------------------------------------

  /** sendEmail: a message from the company address, its error rethrown. */
  method SendEmail(mailer: Mailer, company: JsValue, to: JsValue, templateId: string, data: TemplateData)
    returns (error: Option<JsError>)
    modifies mailer
    ensures mailer.sent == old(mailer.sent) + [Mail(to, company, templateId, data)]
    ensures error == SendError(mailer.script, |old(mailer.sent)|)
  {
    error := mailer.Send(Mail(to, company, templateId, data));
  }

  method SaveUserData(table: UserTable, mailer: Mailer, u: UserData, company: JsValue, accepted: bool)
    returns (thrown: Option<JsError>)
    modifies table, mailer
    ensures var s := SaveSpec(u, company, old(table.items), mailer.script, |old(mailer.sent)|, accepted);
      table.items == s.items && mailer.sent == old(mailer.sent) + s.mails && thrown == s.thrown
  {
    var error: Option<JsError> := None;
    var tried: seq<Mail> := [];
    var ok := table.Put(u, accepted);
    if !ok {
      error := Some(SaveError);
    } else {
      error := SendEmail(mailer, company, u.email, UserTemplate, UserInfo(u.nombreDelAlumno, u.email));
      tried := [UserMail(u, company)];
      if error.None? {
        error := SendEmail(mailer, company, company, CompanyTemplate, UserInfo(u.nombreDelAlumno, u.email));
        tried := tried + [CompanyMail(u, company)];
      }
    }
    if error.None? {
      return None;
    }
    var failed := SendEmail(mailer, company, company, FailureTemplate, UserInfo(u.nombreDelAlumno, u.email));
    thrown := if failed.Some? then failed else Some(SaveError);
  }

  /** The try block of the handler: verify, fold the session into userData and save it. */
  method ProcessEvent(v: Verification, company: JsValue, table: UserTable, mailer: Mailer, accepted: bool)
    returns (thrown: Option<JsError>)
    modifies table, mailer
    ensures var t := TrySpec(v, company, old(table.items), mailer.script, |old(mailer.sent)|, accepted);
      table.items == t.items && mailer.sent == old(mailer.sent) + t.mails && thrown == t.thrown
  {
    match v {
      case Rejected(e) =>
        return Some(e);
      case Verified(ev) =>
        if ev.eventType != CheckoutCompleted {
          return None;
        }
        var fields: Result<map<string, JsValue>, JsError>;
        if ev.session.customFields.Some? {
          fields := Reduce(ev.session.customFields.value);
        } else {
          fields := Ok(map[]);
        }
        var userData := if fields.Err? then Err(fields.error) else ToUserData(fields.value, ev.session.customerDetails);
        if userData.Err? {
          return Some(userData.error);
        }
        thrown := SaveUserData(table, mailer, userData.value, company, accepted);
    }
  }

  method HandleWebhook(v: Verification, company: JsValue, date: string, table: UserTable, mailer: Mailer,
                       accepted: bool) returns (completion: Completion)
    modifies table, mailer
    ensures var h := WebhookSpec(v, company, date, old(table.items), mailer.script, |old(mailer.sent)|, accepted);
      table.items == h.items && mailer.sent == old(mailer.sent) + h.mails && completion == h.completion
  {
    var error := ProcessEvent(v, company, table, mailer, accepted);
    if error.None? {
      return Returned(200, Received);
    }
    var failed := SendEmail(mailer, company, company, ErrorTemplate, ErrorInfo(date, error.value.message));
    if failed.Some? {
      return Threw(failed.value);
    }
    completion := Returned(StatusOr400(error.value.statusCode), "Webhook Error: " + error.value.message);
  }

  // ---------------------------------------------------------------------
  // What saveUserData promises
  // ---------------------------------------------------------------------

  /**
   * The put overwrites: once accepted, the email maps to exactly the user
   * data and no other key changes, whatever happens to the emails after it.
   */
  lemma PutOverwrites(u: UserData, company: JsValue, items: map<string, UserData>,
                      script: seq<SendResult>, start: nat, accepted: bool)
    ensures var s := SaveSpec(u, company, items, script, start, accepted);
      if accepted && u.email.Str? then
        && u.email.s in s.items && s.items[u.email.s] == u
        && (forall k :: k != u.email.s ==> (k in s.items <==> k in items))
        && (forall k :: k != u.email.s && k in items ==> s.items[k] == items[k])
      else s.items == items
  {
  }

  /** saveUserData succeeds exactly when the put and both emails do; then it sent the user's and the company's email, in that order. */
  lemma SaveSucceedsIff(u: UserData, company: JsValue, items: map<string, UserData>,
                        script: seq<SendResult>, start: nat, accepted: bool)
    ensures var s := SaveSpec(u, company, items, script, start, accepted);
      s.thrown.None? <==> accepted && u.email.Str? && SendError(script, start).None? && SendError(script, start + 1).None?
    ensures var s := SaveSpec(u, company, items, script, start, accepted);
      s.thrown.None? ==>
        && |s.mails| == 2
        && s.mails[0].to == u.email && s.mails[0].templateId == UserTemplate
        && s.mails[1].to == company && s.mails[1].templateId == CompanyTemplate
  {
  }

  /**
   * Any failure in the try block ends in exactly one failure email to the
   * company, attempted last, and then SaveError is thrown, or that email's
   * own error when it fails too.
   */
  lemma SaveFailureReportsOnce(u: UserData, company: JsValue, items: map<string, UserData>,
                               script: seq<SendResult>, start: nat, accepted: bool)
    requires SaveSpec(u, company, items, script, start, accepted).thrown.Some?
    ensures var s := SaveSpec(u, company, items, script, start, accepted);
      && 1 <= |s.mails| <= 3
      && s.mails[|s.mails| - 1].to == company
      && s.mails[|s.mails| - 1].templateId == FailureTemplate
      && (forall i :: 0 <= i < |s.mails| - 1 ==> s.mails[i].templateId != FailureTemplate)
      && s.thrown == (var e := SendError(script, start + |s.mails| - 1); if e.Some? then e else Some(SaveError))
  {
  }

  /** When the put fails, the only email is the failure report: the user is not emailed. */
  lemma PutFailureSkipsUser(u: UserData, company: JsValue, items: map<string, UserData>,
                            script: seq<SendResult>, start: nat, accepted: bool)
    requires !(accepted && u.email.Str?)
    ensures var s := SaveSpec(u, company, items, script, start, accepted);
      s.mails == [FailureMail(u, company)] && s.items == items && s.thrown.Some?
  {
  }

  // ---------------------------------------------------------------------
  // What the handler promises
  // ---------------------------------------------------------------------

  /** An error response never reads as the acknowledgement. */
  lemma ErrorBodyIsNotReceived(message: string)
    ensures "Webhook Error: " + message != Received
  {
    assert ("Webhook Error: " + message)[0] == 'W' != Received[0];
  }

  /** A verified event of another type is acknowledged without a write or an email. */
  lemma OtherEventsAreQuiet(v: Verification, company: JsValue, date: string, items: map<string, UserData>,
                            script: seq<SendResult>, start: nat, accepted: bool)
    requires v.Verified? && v.event.eventType != CheckoutCompleted
    ensures WebhookSpec(v, company, date, items, script, start, accepted) == Handled(items, [], Returned(200, Received))
  {
  }

  /** A completed checkout whose data is stored and whose two emails go out is acknowledged with 200. */
  lemma CheckoutStoredAndAcknowledged(v: Verification, company: JsValue, date: string, items: map<string, UserData>,
                                      script: seq<SendResult>, start: nat, accepted: bool)
    requires v.Verified? && v.event.eventType == CheckoutCompleted
    requires SessionUserData(v.event.session).Ok?
    ensures var u := SessionUserData(v.event.session).value;
      var h := WebhookSpec(v, company, date, items, script, start, accepted);
      ((h.completion == Returned(200, Received))
        <==> (accepted && u.email.Str? && SendError(script, start).None? && SendError(script, start + 1).None?))
      && (h.completion == Returned(200, Received) ==>
            h.items == items[u.email.s := u] && h.mails == [UserMail(u, company), CompanyMail(u, company)])
  {
    var u := SessionUserData(v.event.session).value;
    var s := SaveSpec(u, company, items, script, start, accepted);
    assert TrySpec(v, company, items, script, start, accepted) == s;
    SaveSucceedsIff(u, company, items, script, start, accepted);
    if s.thrown.Some? {
      ErrorBodyIsNotReceived(s.thrown.value.message);
    }
  }

  /** A rejected signature is reported once and answered with its status code (or 400). */
  lemma RejectedEventIsReported(e: JsError, company: JsValue, date: string, items: map<string, UserData>,
                                script: seq<SendResult>, start: nat, accepted: bool)
    ensures var h := WebhookSpec(Rejected(e), company, date, items, script, start, accepted);
      && h.items == items
      && h.mails == [ErrorMail(company, date, e.message)]
      && h.completion == (if SendError(script, start).Some? then Threw(SendError(script, start).value)
                          else Returned(StatusOr400(e.statusCode), "Webhook Error: " + e.message))
  {
  }

  /**
   * A failed save (a refused put, or a failed user or company email) is
   * answered 400 "Webhook Error: Error saving user data." once its failure
   * email and its error report are delivered.
   */
  lemma FailedSaveAnswers400(v: Verification, company: JsValue, date: string, items: map<string, UserData>,
                             script: seq<SendResult>, start: nat, accepted: bool)
    requires v.Verified? && v.event.eventType == CheckoutCompleted
    requires SessionUserData(v.event.session).Ok?
    requires var s := SaveSpec(SessionUserData(v.event.session).value, company, items, script, start, accepted);
      && s.thrown.Some? && |s.mails| > 0
      && SendError(script, start + |s.mails| - 1).None? && SendError(script, start + |s.mails|).None?
    ensures var s := SaveSpec(SessionUserData(v.event.session).value, company, items, script, start, accepted);
      WebhookSpec(v, company, date, items, script, start, accepted)
        == Handled(s.items, s.mails + [ErrorMail(company, date, SaveError.message)],
                   Returned(400, "Webhook Error: " + SaveError.message))
  {
    var u := SessionUserData(v.event.session).value;
    SaveFailureReportsOnce(u, company, items, script, start, accepted);
  }

  /** A refused put, in particular, mails only the failure report and then the error report. */
  lemma RefusedPutAnswers400(v: Verification, company: JsValue, date: string, items: map<string, UserData>,
                             script: seq<SendResult>, start: nat, accepted: bool)
    requires v.Verified? && v.event.eventType == CheckoutCompleted
    requires SessionUserData(v.event.session).Ok?
    requires !(accepted && SessionUserData(v.event.session).value.email.Str?)
    requires SendError(script, start).None? && SendError(script, start + 1).None?
    ensures var u := SessionUserData(v.event.session).value;
      WebhookSpec(v, company, date, items, script, start, accepted)
        == Handled(items, [FailureMail(u, company), ErrorMail(company, date, SaveError.message)],
                   Returned(400, "Webhook Error: " + SaveError.message))
  {
    var u := SessionUserData(v.event.session).value;
    assert TrySpec(v, company, items, script, start, accepted) == Saved(items, [FailureMail(u, company)], Some(SaveError));
  }

  /** A session whose userData cannot be built throws a TypeError, which is answered 400 once reported. */
  lemma TypeErrorAnswers400(v: Verification, company: JsValue, date: string, items: map<string, UserData>,
                            script: seq<SendResult>, start: nat, accepted: bool)
    requires v.Verified? && v.event.eventType == CheckoutCompleted
    requires SessionUserData(v.event.session).Err?
    requires SendError(script, start).None?
    ensures var e := SessionUserData(v.event.session).error;
      WebhookSpec(v, company, date, items, script, start, accepted)
        == Handled(items, [ErrorMail(company, date, e.message)], Returned(400, "Webhook Error: " + e.message))
  {
    SessionErrorsHaveNoStatus(v.event.session);
  }

  /**
   * Whatever the try block throws settles the handler: 200 and the
   * acknowledgement when nothing is thrown; otherwise `err.statusCode || 400`
   * with "Webhook Error: " and the error's message, unless the report send
   * itself throws, whose error then rejects the handler.
   */
  lemma ErrorStatus(v: Verification, company: JsValue, date: string, items: map<string, UserData>,
                    script: seq<SendResult>, start: nat, accepted: bool)
    ensures var t := TrySpec(v, company, items, script, start, accepted);
      var h := WebhookSpec(v, company, date, items, script, start, accepted);
      && (t.thrown.None? ==> h.completion == Returned(200, Received))
      && (t.thrown.Some? ==>
            var failed := SendError(script, start + |t.mails|);
            h.completion == if failed.Some? then Threw(failed.value)
                            else Returned(StatusOr400(t.thrown.value.statusCode), "Webhook Error: " + t.thrown.value.message))
  {
  }

  /** No mail of `mails` is an error report. */
  ghost predicate NoErrorReport(mails: seq<Mail>) {
    forall i :: 0 <= i < |mails| ==> mails[i].templateId != ErrorTemplate
  }

  /**
   * `h` is acknowledged with 200 and reports no error, or it ends with its
   * only error report, sent to the company, whose message the response body
   * carries unless that send itself throws.
   */
  ghost predicate ReportedOnce(h: Handled, company: JsValue, date: string, script: seq<SendResult>, start: nat) {
    && (forall i :: 0 <= i < |h.mails| - 1 ==> h.mails[i].templateId != ErrorTemplate)
    && (h.completion == Returned(200, Received) ==> NoErrorReport(h.mails))
    && (h.completion != Returned(200, Received) ==>
          && |h.mails| > 0
          && var r := h.mails[|h.mails| - 1];
          && r.to == company && r.templateId == ErrorTemplate && r.data.ErrorInfo? && r.data.errorDate == date
          && (h.completion.Threw? ==> SendError(script, start + |h.mails| - 1) == Some(h.completion.error))
          && (h.completion.Returned? ==>
                SendError(script, start + |h.mails| - 1).None?
                && h.completion.body == "Webhook Error: " + r.data.errorMessage))
  }

  /** The catch block adds one error report after mail that holds none. */
  lemma ReportErrorOnce(e: JsError, company: JsValue, date: string, items: map<string, UserData>,
                        mails: seq<Mail>, script: seq<SendResult>, start: nat)
    requires NoErrorReport(mails)
    ensures ReportedOnce(ReportError(e, company, date, items, mails, script, start), company, date, script, start)
  {
    var h := ReportError(e, company, date, items, mails, script, start);
    ErrorBodyIsNotReceived(e.message);
    assert forall i :: 0 <= i < |h.mails| - 1 ==> h.mails[i] == mails[i];
  }

  /** The user template appears in `mails`. */
  ghost predicate MailsUser(mails: seq<Mail>) {
    exists i :: 0 <= i < |mails| && mails[i].templateId == UserTemplate
  }

  /**
   * saveUserData sends at most three emails, all from the company address,
   * none of them an error report, and it emails the user only after a
   * successful put.
   */
  lemma SaveEffects(u: UserData, company: JsValue, items: map<string, UserData>,
                    script: seq<SendResult>, start: nat, accepted: bool)
    ensures var s := SaveSpec(u, company, items, script, start, accepted);
      && |s.mails| <= 3 && NoErrorReport(s.mails)
      && (forall m :: m in s.mails ==> m.from == company)
      && (s.items != items || MailsUser(s.mails) ==> accepted && u.email.Str? && s.items == items[u.email.s := u])
  {
    var s := SaveSpec(u, company, items, script, start, accepted);
    if !(accepted && u.email.Str?) {
      assert s.mails == [FailureMail(u, company)] && s.items == items;
      assert !MailsUser(s.mails);
    }
  }

  /**
   * The try block sends at most three emails, all from the company address,
   * none of them an error report; it writes only the accepted put of a
   * completed checkout's user data, and emails the user only after it.
   */
  lemma TryBlockEffects(v: Verification, company: JsValue, items: map<string, UserData>,
                        script: seq<SendResult>, start: nat, accepted: bool)
    ensures var t := TrySpec(v, company, items, script, start, accepted);
      && |t.mails| <= 3 && NoErrorReport(t.mails)
      && (forall m :: m in t.mails ==> m.from == company)
      && (t.items != items || MailsUser(t.mails) ==>
            && v.Verified? && v.event.eventType == CheckoutCompleted
            && SessionUserData(v.event.session).Ok?
            && var u := SessionUserData(v.event.session).value;
            && accepted && u.email.Str? && t.items == items[u.email.s := u])
  {
    match v
    case Rejected(e) =>
    case Verified(ev) =>
      if ev.eventType == CheckoutCompleted {
        match SessionUserData(ev.session)
        case Err(e) =>
        case Ok(u) =>
          SaveEffects(u, company, items, script, start, accepted);
      }
  }

  /** Every invocation either is acknowledged without an error report, or reports its error exactly once. */
  lemma EveryErrorIsReported(v: Verification, company: JsValue, date: string, items: map<string, UserData>,
                             script: seq<SendResult>, start: nat, accepted: bool)
    ensures ReportedOnce(WebhookSpec(v, company, date, items, script, start, accepted), company, date, script, start)
  {
    var t := TrySpec(v, company, items, script, start, accepted);
    TryBlockEffects(v, company, items, script, start, accepted);
    if t.thrown.Some? {
      ReportErrorOnce(t.thrown.value, company, date, t.items, t.mails, script, start);
    }
  }

  /** An invocation attempts at most four sends, all from the company address. */
  lemma AtMostFourSends(v: Verification, company: JsValue, date: string, items: map<string, UserData>,
                        script: seq<SendResult>, start: nat, accepted: bool)
    ensures var h := WebhookSpec(v, company, date, items, script, start, accepted);
      |h.mails| <= 4 && forall m :: m in h.mails ==> m.from == company
  {
    var t := TrySpec(v, company, items, script, start, accepted);
    TryBlockEffects(v, company, items, script, start, accepted);
  }

  /**
   * The store changes only by the put of a completed checkout's user data,
   * and the user is emailed only after that put.
   */
  lemma OnlyCheckoutWrites(v: Verification, company: JsValue, date: string, items: map<string, UserData>,
                           script: seq<SendResult>, start: nat, accepted: bool)
    ensures var h := WebhookSpec(v, company, date, items, script, start, accepted);
      h.items != items || MailsUser(h.mails) ==>
        && v.Verified? && v.event.eventType == CheckoutCompleted
        && SessionUserData(v.event.session).Ok?
        && var u := SessionUserData(v.event.session).value;
        && accepted && u.email.Str? && h.items == items[u.email.s := u]
  {
    var t := TrySpec(v, company, items, script, start, accepted);
    var h := WebhookSpec(v, company, date, items, script, start, accepted);
    TryBlockEffects(v, company, items, script, start, accepted);
    assert h.items == t.items;
    if MailsUser(h.mails) && t.thrown.Some? {
      var i :| 0 <= i < |h.mails| && h.mails[i].templateId == UserTemplate;
      assert h.mails == t.mails + [ErrorMail(company, date, t.thrown.value.message)];
      assert t.mails[i].templateId == UserTemplate;
    }
  }
}
