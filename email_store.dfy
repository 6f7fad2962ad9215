/**
 * The reserve-once address store of routes/validateAndStoreEmail.mjs.
 *
 * The handler takes an address from one of two request shapes, validates it,
 * and stores { email } under that address with a put conditioned on
 * attribute_not_exists(email); every outcome becomes a response with a string
 * status code ('200', '409' or '400'), a JSON content type and the JSON text
 * of { message }.  The table is a map from address to item, the store's own
 * failures an oracle argument.
 */
module EmailStore {
  import opened Base
  import EmailFormat
  import JsonText

  /** An error as the catch block reads it: its name and its message. */
  datatype JsError = JsError(name: string, message: string)

  /** The name DynamoDB gives the error of a failed put condition, and its message. */
  const ConditionalCheckFailed := "ConditionalCheckFailedException"
  const ConditionFailedMessage := "The conditional request failed"

  /** The TypeError that reading `.email` of null throws. */
  const NullEmailError := JsError("TypeError", "Cannot read properties of null (reading 'email')")

  const InvalidRequest := JsError("Error", "Invalid request")
  const InvalidEmailFormat := JsError("Error", "Invalid email format")
  const StoredMessage := "Email stored successfully"

  /** What JSON.parse makes of a string body, as far as the handler looks at it. */
  datatype ParsedBody =
    | Unparsable(message: string)    // JSON.parse throws a SyntaxError with this message
    | JsonNull                       // the text is `null`
    | Parsed(email: Option<string>)  // any other value; `email` is its string property of that name, if any

  /**
   * The incoming event: `body` is present when event.body is a string (and is
   * then what JSON.parse makes of it), `email` is event.email.
   */
  datatype Request = Request(body: Option<ParsedBody>, email: Option<string>)

  datatype Item = Item(email: string)

  datatype Response = Response(statusCode: string, body: string, headers: map<string, string>)

  const JsonHeaders: map<string, string> := map["Content-Type" := "application/json"]

  /** The response the handler returns for a status code and message. */
  function Reply(statusCode: string, message: string): Response {
    Response(statusCode, JsonText.StringifyMessage(message), JsonHeaders)
  }

  /** A JavaScript string value is truthy when it is not empty. */
  predicate Truthy(v: Option<string>) {
    v.Some? && v.value != ""
  }

  /** String(email): the text of the value, "undefined" when there is none. */
  function EmailText(email: Option<string>): string {
    if email.Some? then email.value else "undefined"
  }

  /** err.name === 'ConditionalCheckFailedException' ? '409' : '400' */
  function StatusOf(e: JsError): string {
    if e.name == ConditionalCheckFailed then "409" else "400"
  }

  // ---------------------------------------------------------------------
  // The handler, as a function of the table before the call
  // ---------------------------------------------------------------------

  /** The address text taken from the request (lines 18-26), or the error thrown there. */
  function RequestedEmail(request: Request): Result<string, JsError> {
    if request.body.Some? then
      match request.body.value
      case Unparsable(m) => Err(JsError("SyntaxError", m))
      case JsonNull => Err(NullEmailError)
      case Parsed(email) => Ok(EmailText(email))
    else if Truthy(request.email) then Ok(request.email.value)
    else Err(InvalidRequest)
  }

  /** The error with which DynamoDB refuses a put whose condition fails. */
  const ConditionError := JsError(ConditionalCheckFailed, ConditionFailedMessage)

  /** Lines 28-36 for an extracted address: validate it, then put it if absent. */
  function StoreAddress(items: map<string, Item>, email: string, fault: Option<JsError>): Result<map<string, Item>, JsError> {
    if !EmailFormat.ValidateEmail(email) then Err(InvalidEmailFormat)
    else if fault.Some? then Err(fault.value)
    else if email in items then Err(ConditionError)
    else Ok(items[email := Item(email)])
  }

  /** The try block (lines 16-38): the table after the put, or the error thrown on the way. */
  function TryStore(items: map<string, Item>, request: Request, fault: Option<JsError>): Result<map<string, Item>, JsError> {
    match RequestedEmail(request)
    case Err(e) => Err(e)
    case Ok(email) => StoreAddress(items, email, fault)
  }

  /** The status code and message of the response, and the table afterwards. */
  datatype Outcome = Outcome(statusCode: string, message: string, items: map<string, Item>)

  /** What one invocation answers (the catch block maps every error alike) and leaves in the table. */
  function StoreOutcome(items: map<string, Item>, request: Request, fault: Option<JsError>): Outcome {
    match TryStore(items, request, fault)
    case Ok(stored) => Outcome("200", StoredMessage, stored)
    case Err(e) => Outcome(StatusOf(e), e.message, items)
  }

  // ---------------------------------------------------------------------
  // The table and the handler
  // ---------------------------------------------------------------------

  class EmailTable {
    var items: map<string, Item>

    constructor (initial: map<string, Item>)
      ensures items == initial
    {
      items := initial;
    }

    /**
     * put with ConditionExpression attribute_not_exists(email).  A `fault`
     * is any other failure of the call; the table is then left as it was.
     */
    method PutIfAbsent(item: Item, fault: Option<JsError>) returns (err: Option<JsError>)
      modifies this
      ensures fault.Some? ==> err == fault && items == old(items)
      ensures fault.None? && item.email in old(items) ==> err == Some(ConditionError) && items == old(items)
      ensures fault.None? && item.email !in old(items) ==> err == None && items == old(items)[item.email := item]
    {
      if fault.Some? {
        err := fault;
      } else if item.email in items {
        err := Some(ConditionError);
      } else {
        items := items[item.email := item];
        err := None;
      }
    }
  }

  /** The first step of the handler (lines 18-26): the value of `email`, or the error thrown. */
  method ReadEmail(request: Request) returns (email: Option<string>, thrown: Option<JsError>)
    ensures request.body.Some? && request.body.value.Unparsable? ==>
      thrown == Some(JsError("SyntaxError", request.body.value.message))
    ensures request.body.Some? && request.body.value.JsonNull? ==> thrown == Some(NullEmailError)
    ensures request.body.Some? && request.body.value.Parsed? ==> thrown.None? && email == request.body.value.email
    ensures request.body.None? && Truthy(request.email) ==> thrown.None? && email == request.email
    ensures request.body.None? && !Truthy(request.email) ==> thrown == Some(InvalidRequest)
    ensures thrown.None? ==> RequestedEmail(request) == Ok(EmailText(email))
    ensures thrown.Some? ==> RequestedEmail(request) == Err(thrown.value)
  {
    email, thrown := None, None;
    if request.body.Some? {
      match request.body.value
      case Unparsable(m) => thrown := Some(JsError("SyntaxError", m));
      case JsonNull => thrown := Some(NullEmailError);
      case Parsed(e) => email := e;
    } else if Truthy(request.email) {
      email := request.email;
    } else {
      thrown := Some(InvalidRequest);
    }
  }

  /** The validation and the conditional put of the try block (lines 28-36). */
  method ValidateAndPut(table: EmailTable, email: string, fault: Option<JsError>) returns (thrown: Option<JsError>)
    modifies table
    ensures !EmailFormat.ValidateEmail(email) ==> thrown == Some(InvalidEmailFormat) && table.items == old(table.items)
    ensures EmailFormat.ValidateEmail(email) && fault.Some? ==> thrown == fault && table.items == old(table.items)
    ensures EmailFormat.ValidateEmail(email) && fault.None? && email in old(table.items) ==>
      thrown == Some(ConditionError) && table.items == old(table.items)
    ensures EmailFormat.ValidateEmail(email) && fault.None? && email !in old(table.items) ==>
      thrown.None? && table.items == old(table.items)[email := Item(email)]
    ensures var r := StoreAddress(old(table.items), email, fault);
      if r.Ok? then thrown.None? && table.items == r.value
      else thrown == Some(r.error) && table.items == old(table.items)
  {
    if !EmailFormat.ValidateEmail(email) {
      thrown := Some(InvalidEmailFormat);
    } else {
      thrown := table.PutIfAbsent(Item(email), fault);
    }
  }

  /** handler: extract, validate, put if absent, and answer. */
  method Handle(table: EmailTable, request: Request, fault: Option<JsError>) returns (response: Response)
    modifies table
    ensures var o := StoreOutcome(old(table.items), request, fault);
      response == Reply(o.statusCode, o.message) && table.items == o.items
  {
    var email, thrown := ReadEmail(request);
    if thrown.None? {
      thrown := ValidateAndPut(table, EmailText(email), fault);
    }
    if thrown.None? {
      response := Reply("200", StoredMessage);
    } else {
      response := Reply(StatusOf(thrown.value), thrown.value.message);
    }
  }

  // ---------------------------------------------------------------------
  // What the handler promises
  // ---------------------------------------------------------------------

  /** Every response is JSON whose body gives back the message; its status is one of three. */
  lemma ResponseShape(items: map<string, Item>, request: Request, fault: Option<JsError>)
    ensures var o := StoreOutcome(items, request, fault);
      && Reply(o.statusCode, o.message).headers == JsonHeaders
      && JsonText.ParseMessage(Reply(o.statusCode, o.message).body) == Some(o.message)
      && o.statusCode in {"200", "400", "409"}
  {
    JsonText.MessageRoundTrip(StoreOutcome(items, request, fault).message);
  }

  /** Extraction: a string body is parsed and its .email taken; else a truthy event.email; else "Invalid request". */
  lemma ExtractionCases(request: Request)
    ensures request.body.Some? && request.body.value.Parsed? ==>
      RequestedEmail(request) == Ok(EmailText(request.body.value.email))
    ensures request.body.None? && Truthy(request.email) ==> RequestedEmail(request) == Ok(request.email.value)
    ensures request.body.None? && !Truthy(request.email) ==> RequestedEmail(request) == Err(InvalidRequest)
    ensures request.body.None? && request.email == Some("") ==> RequestedEmail(request) == Err(InvalidRequest)
  {
  }

  /** A request with no address gives '400' and 'Invalid request'; the table is untouched. */
  lemma MissingAddressRejected(items: map<string, Item>, request: Request, fault: Option<JsError>)
    requires request.body.None? && !Truthy(request.email)
    ensures StoreOutcome(items, request, fault) == Outcome("400", "Invalid request", items)
  {
  }

  /** A parsed body without an email property validates the text "undefined" and is rejected. */
  lemma BodyWithoutEmailRejected(items: map<string, Item>, request: Request, fault: Option<JsError>)
    requires request.body == Some(Parsed(None))
    ensures StoreOutcome(items, request, fault) == Outcome("400", "Invalid email format", items)
  {
    EmailFormat.UndefinedIsRejected();
  }

  /** An address that fails validation gives '400' and 'Invalid email format'; the table is untouched. */
  lemma InvalidAddressRejected(items: map<string, Item>, request: Request, fault: Option<JsError>)
    requires RequestedEmail(request).Ok? && !EmailFormat.ValidateEmail(RequestedEmail(request).value)
    ensures StoreOutcome(items, request, fault) == Outcome("400", "Invalid email format", items)
  {
  }

  /** A valid new address is stored as { email } under itself, with nothing else changed, and '200'. */
  lemma NewAddressStored(items: map<string, Item>, request: Request)
    requires RequestedEmail(request).Ok?
    requires EmailFormat.ValidateEmail(RequestedEmail(request).value)
    requires RequestedEmail(request).value !in items
    ensures var email := RequestedEmail(request).value;
      var o := StoreOutcome(items, request, None);
      && o.statusCode == "200" && o.message == "Email stored successfully"
      && o.items.Keys == items.Keys + {email}
      && o.items[email] == Item(email)
      && forall k :: k in items ==> o.items[k] == items[k]
  {
  }

  /** A valid address already present is refused by the condition: '409', table untouched. */
  lemma ExistingAddressConflicts(items: map<string, Item>, request: Request)
    requires RequestedEmail(request).Ok?
    requires EmailFormat.ValidateEmail(RequestedEmail(request).value)
    requires RequestedEmail(request).value in items
    ensures StoreOutcome(items, request, None) == Outcome("409", ConditionFailedMessage, items)
  {
  }

  /**
   * Put-if-absent, never overwrite: whatever happens, every item already
   * stored is still stored unchanged, and at most the requested address is added.
   */
  lemma NeverOverwrites(items: map<string, Item>, request: Request, fault: Option<JsError>)
    ensures var o := StoreOutcome(items, request, fault);
      && (forall k :: k in items ==> k in o.items && o.items[k] == items[k])
      && (o.items != items ==> RequestedEmail(request).Ok? && o.items == items[RequestedEmail(request).value := Item(RequestedEmail(request).value)])
  {
  }

  /** The status is '200' exactly when the table grew. */
  lemma SuccessIffStored(items: map<string, Item>, request: Request, fault: Option<JsError>)
    ensures var o := StoreOutcome(items, request, fault);
      o.statusCode == "200" <==> o.items != items
  {
    var o := StoreOutcome(items, request, fault);
    if RequestedEmail(request).Ok? {
      var email := RequestedEmail(request).value;
      if EmailFormat.ValidateEmail(email) && fault.None? && email !in items {
        assert email in o.items;
      }
    }
  }

  /**
   * With no other store failure, '409' means exactly that the valid address
   * was already a key; any other failure gives '400' unless it carries the
   * condition's error name.
   */
  lemma ConflictIffPresent(items: map<string, Item>, request: Request, fault: Option<JsError>)
    requires fault.None? || fault.value.name != ConditionalCheckFailed
    ensures StoreOutcome(items, request, fault).statusCode == "409" <==>
      && fault.None? && RequestedEmail(request).Ok?
      && EmailFormat.ValidateEmail(RequestedEmail(request).value)
      && RequestedEmail(request).value in items
    ensures TryStore(items, request, fault).Err? && StoreOutcome(items, request, fault).statusCode != "409" ==>
      StoreOutcome(items, request, fault).statusCode == "400"
  {
  }

  /**
   * A store failure other than the condition, on a valid address, answers
   * with its own status and message and leaves the table as it was: '400'
   * unless it carries the condition's error name.
   */
  lemma StoreFaultRejected(items: map<string, Item>, request: Request, fault: Option<JsError>)
    requires fault.Some? && RequestedEmail(request).Ok? && EmailFormat.ValidateEmail(RequestedEmail(request).value)
    ensures StoreOutcome(items, request, fault) == Outcome(StatusOf(fault.value), fault.value.message, items)
    ensures fault.value.name != ConditionalCheckFailed ==>
      StoreOutcome(items, request, fault) == Outcome("400", fault.value.message, items)
  {
  }

  /**
   * Validation is case-insensitive but storage is not: "Ana.Perez@Mail.COM" is
   * stored under that very text, beside any lower-case spelling already present.
   */
  lemma StoredKeyKeepsCase(items: map<string, Item>)
    requires "ana.perez@mail.com" in items && "Ana.Perez@Mail.COM" !in items
    ensures var o := StoreOutcome(items, Request(None, Some("Ana.Perez@Mail.COM")), None);
      && o.statusCode == "200"
      && "Ana.Perez@Mail.COM" in o.items && "ana.perez@mail.com" in o.items
      && o.items["ana.perez@mail.com"] == items["ana.perez@mail.com"]
  {
    var request := Request(None, Some("Ana.Perez@Mail.COM"));
    assert RequestedEmail(request) == Ok("Ana.Perez@Mail.COM");
    EmailFormat.MixedCaseIsAccepted();
    var stored := items["Ana.Perez@Mail.COM" := Item("Ana.Perez@Mail.COM")];
    assert TryStore(items, request, None) == Ok(stored);
    assert "ana.perez@mail.com" != "Ana.Perez@Mail.COM";
  }
}
