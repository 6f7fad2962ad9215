/**
 * The part of index.js that reads a completed checkout session: the reduce
 * over `session.custom_fields` (lines 40-45) and the `userData` object built
 * from it (lines 48-53).
 *
 * The reduce stores `field[field.type].value` under `field.key` in one
 * accumulator, so a later field with the same key overwrites an earlier one;
 * a field whose type-named entry is missing or null makes the property read
 * throw a TypeError, which ends the reduce.
 */
module CheckoutSession {
  import opened Base

  /** The JavaScript values the session's properties can hold, as far as this code reads them. */
  datatype JsValue = Undefined | Null | Str(s: string)

  /** A thrown error: its message, and its `statusCode` property if it has one. */
  datatype JsError = JsError(message: string, statusCode: Option<int>)

  /** The object stored under a type name of a custom field; the code reads its `value`. */
  datatype TypedValue = TypedValue(value: JsValue)

  /**
   * One entry of `custom_fields`: its `key`, its `type`, and the properties
   * named after types (`text`, `dropdown`, `numeric`); a name mapped to None
   * holds null.
   */
  datatype CustomField = CustomField(key: string, fieldType: string, byType: map<string, Option<TypedValue>>)

  datatype CustomerDetails = CustomerDetails(email: JsValue)

  /** `custom_fields` is None when it is null or absent, `customer_details` None when null. */
  datatype Session = Session(customFields: Option<seq<CustomField>>, customerDetails: Option<CustomerDetails>)

  datatype UserData = UserData(email: JsValue, telefono: JsValue, ciudad: JsValue, nombreDelAlumno: JsValue)

  /** The TypeError V8 throws for reading `property` of undefined or null. */
  function ReadError(holder: string, property: string): JsError {
    JsError("Cannot read properties of " + holder + " (reading '" + property + "')", None)
  }

  /** field[field.type].value */
  function FieldValue(field: CustomField): Result<JsValue, JsError> {
    if field.fieldType !in field.byType then Err(ReadError("undefined", "value"))
    else match field.byType[field.fieldType]
      case None => Err(ReadError("null", "value"))
      case Some(t) => Ok(t.value)
  }

  /** The accumulator after the reduce has visited `fields` from the left, or the error it threw. */
  function Collect(fields: seq<CustomField>): Result<map<string, JsValue>, JsError>
    decreases |fields|
  {
    if fields == [] then Ok(map[])
    else
      var last := fields[|fields| - 1];
      match Collect(fields[..|fields| - 1])
      case Err(e) => Err(e)
      case Ok(acc) =>
        match FieldValue(last)
        case Err(e) => Err(e)
        case Ok(v) => Ok(acc[last.key := v])
  }

  /** Once the reduce has thrown, the fields after that one change nothing. */
  lemma {:induction false} CollectErrorStays(fields: seq<CustomField>, n: nat)
    requires n <= |fields| && Collect(fields[..n]).Err?
    ensures Collect(fields) == Collect(fields[..n])
    decreases |fields| - n
  {
    if n < |fields| {
      var p := fields[..n + 1];
      assert p[..n] == fields[..n];
      CollectErrorStays(fields, n + 1);
    } else {
      assert fields[..n] == fields;
    }
  }

  /** The reduce at index.js:41-44: one accumulator, updated in place field by field. */
  method Reduce(fields: seq<CustomField>) returns (r: Result<map<string, JsValue>, JsError>)
    ensures r == Collect(fields)
  {
    var acc: map<string, JsValue> := map[];
    var i := 0;
    while i < |fields|
      invariant 0 <= i <= |fields|
      invariant Collect(fields[..i]) == Ok(acc)
    {
      var field := fields[i];
      var v := FieldValue(field);
      assert fields[..i + 1][..i] == fields[..i];
      if v.Err? {
        CollectErrorStays(fields, i + 1);
        return Err(v.error);
      }
      acc := acc[field.key := v.value];
      i := i + 1;
    }
    assert fields[..i] == fields;
    r := Ok(acc);
  }

  /** Reading a property of the accumulator object: undefined when the key was never set. */
  function Get(fields: map<string, JsValue>, key: string): JsValue {
    if key in fields then fields[key] else Undefined
  }

  /** The custom-field object, `{}` when the session has none. */
  function SessionFields(session: Session): Result<map<string, JsValue>, JsError> {
    if session.customFields.Some? then Collect(session.customFields.value) else Ok(map[])
  }

  /** The object literal of lines 48-53; reading `.email` of a null customer_details throws. */
  function ToUserData(fields: map<string, JsValue>, details: Option<CustomerDetails>): Result<UserData, JsError> {
    match details
    case None => Err(ReadError("null", "email"))
    case Some(d) => Ok(UserData(d.email, Get(fields, "telfono"), Get(fields, "ciudad"), Get(fields, "nombredelalumno")))
  }

  /** The user data of a session, or the TypeError thrown while building it. */
  function SessionUserData(session: Session): Result<UserData, JsError> {
    match SessionFields(session)
    case Err(e) => Err(e)
    case Ok(fields) => ToUserData(fields, session.customerDetails)
  }

  // ---------------------------------------------------------------------
  // The last entry for a key wins
  // ---------------------------------------------------------------------

  /** Entry `i` is the last one with its key. */
  ghost predicate IsLastWithKey(fields: seq<CustomField>, i: int) {
    0 <= i < |fields| && forall j :: i < j < |fields| ==> fields[j].key != fields[i].key
  }

  /** The reduce succeeds exactly when every field's value can be read. */
  lemma {:induction false} CollectOkIff(fields: seq<CustomField>)
    ensures Collect(fields).Ok? <==> forall i :: 0 <= i < |fields| ==> FieldValue(fields[i]).Ok?
    decreases |fields|
  {
    if fields != [] {
      var n := |fields| - 1;
      var init := fields[..n];
      CollectOkIff(init);
      assert forall i :: 0 <= i < n ==> init[i] == fields[i];
      if !Collect(fields).Ok? {
        if Collect(init).Ok? {
          assert FieldValue(fields[n]).Err?;
        } else {
          var b :| 0 <= b < n && FieldValue(init[b]).Err?;
          assert FieldValue(fields[b]).Err?;
        }
      }
    }
  }

  /** The keys of the object are exactly the fields' keys. */
  lemma {:induction false} CollectKeys(fields: seq<CustomField>)
    requires Collect(fields).Ok?
    ensures forall k :: k in Collect(fields).value <==> exists i :: 0 <= i < |fields| && fields[i].key == k
    decreases |fields|
  {
    if fields != [] {
      var n := |fields| - 1;
      var init := fields[..n];
      var last := fields[n];
      CollectKeys(init);
      var m := Collect(fields).value;
      assert m == Collect(init).value[last.key := FieldValue(last).value];
      forall k
        ensures k in m <==> exists i :: 0 <= i < |fields| && fields[i].key == k
      {
        if k in m && k != last.key {
          var i :| 0 <= i < n && init[i].key == k;
          assert fields[i].key == k;
        }
        if k == last.key {
          assert fields[n].key == k;
        }
        if exists i :: 0 <= i < |fields| && fields[i].key == k {
          var i :| 0 <= i < |fields| && fields[i].key == k;
          if i < n { assert init[i].key == k; }
        }
      }
    }
  }

  /** Each key holds the value of the last field with that key. */
  lemma {:induction false} CollectLastValues(fields: seq<CustomField>)
    requires Collect(fields).Ok?
    ensures forall i :: IsLastWithKey(fields, i) ==> fields[i].key in Collect(fields).value
    ensures forall i :: IsLastWithKey(fields, i) ==> FieldValue(fields[i]) == Ok(Collect(fields).value[fields[i].key])
    decreases |fields|
  {
    if fields != [] {
      var n := |fields| - 1;
      var init := fields[..n];
      var last := fields[n];
      CollectLastValues(init);
      var m := Collect(fields).value;
      assert m == Collect(init).value[last.key := FieldValue(last).value];
      forall i | IsLastWithKey(fields, i)
        ensures fields[i].key in m && FieldValue(fields[i]) == Ok(m[fields[i].key])
      {
        if i < n {
          assert fields[i].key != last.key;
          assert init[i] == fields[i];
          assert forall j :: i < j < n ==> init[j] == fields[j];
          assert IsLastWithKey(init, i);
        }
      }
    }
  }

  /** The value a property of the custom-field object has: that of the last field with the key, else undefined. */
  ghost predicate LastValueIs(fields: seq<CustomField>, key: string, v: JsValue) {
    if exists i :: 0 <= i < |fields| && fields[i].key == key then
      exists i :: IsLastWithKey(fields, i) && fields[i].key == key && FieldValue(fields[i]) == Ok(v)
    else v == Undefined
  }

  lemma LastFieldExists(fields: seq<CustomField>, key: string) returns (i: int)
    requires exists i :: 0 <= i < |fields| && fields[i].key == key
    ensures IsLastWithKey(fields, i) && fields[i].key == key
  {
    var j :| 0 <= j < |fields| && fields[j].key == key;
    i := j;
    while i + 1 < |fields| && exists k :: i < k < |fields| && fields[k].key == key
      invariant j <= i < |fields| && fields[i].key == key
      decreases |fields| - i
    {
      var k :| i < k < |fields| && fields[k].key == key;
      i := k;
    }
  }

  lemma LookupIsLastValue(fields: seq<CustomField>, key: string)
    requires Collect(fields).Ok?
    ensures LastValueIs(fields, key, Get(Collect(fields).value, key))
  {
    CollectOkIff(fields);
    CollectKeys(fields);
    if exists i :: 0 <= i < |fields| && fields[i].key == key {
      var i := LastFieldExists(fields, key);
      CollectLastValues(fields);
      assert FieldValue(fields[i]).Ok?;
    }
  }

  /**
   * userData.email is customer_details.email; telefono, ciudad and
   * nombreDelAlumno are the values of the last custom fields keyed "telfono",
   * "ciudad" and "nombredelalumno" (undefined when there is none).
   */
  lemma UserDataSources(session: Session)
    requires SessionUserData(session).Ok?
    ensures var u := SessionUserData(session).value;
      var fields := if session.customFields.Some? then session.customFields.value else [];
      && session.customerDetails.Some?
      && u.email == session.customerDetails.value.email
      && LastValueIs(fields, "telfono", u.telefono)
      && LastValueIs(fields, "ciudad", u.ciudad)
      && LastValueIs(fields, "nombredelalumno", u.nombreDelAlumno)
  {
    var fields := if session.customFields.Some? then session.customFields.value else [];
    assert Collect(fields) == SessionFields(session);
    LookupIsLastValue(fields, "telfono");
    LookupIsLastValue(fields, "ciudad");
    LookupIsLastValue(fields, "nombredelalumno");
  }

  /** Without custom fields the object is empty, and the three custom properties are undefined. */
  lemma NoCustomFields(session: Session)
    requires session.customFields.None? && session.customerDetails.Some?
    ensures SessionFields(session) == Ok(map[])
    ensures SessionUserData(session) == Ok(UserData(session.customerDetails.value.email, Undefined, Undefined, Undefined))
  {
  }

  /** A field whose type-named entry is missing or null makes building the user data throw. */
  lemma UnreadableFieldThrows(session: Session, i: int)
    requires session.customFields.Some? && 0 <= i < |session.customFields.value|
    requires FieldValue(session.customFields.value[i]).Err?
    ensures SessionUserData(session).Err?
  {
    CollectOkIff(session.customFields.value);
  }

  /** Every error the fold throws is a TypeError, which carries no statusCode. */
  lemma {:induction false} CollectErrorsHaveNoStatus(fields: seq<CustomField>)
    ensures Collect(fields).Err? ==> Collect(fields).error.statusCode.None?
    decreases |fields|
  {
    if fields != [] {
      CollectErrorsHaveNoStatus(fields[..|fields| - 1]);
    }
  }

  /** Building the user data throws only TypeErrors, with no statusCode. */
  lemma SessionErrorsHaveNoStatus(session: Session)
    ensures SessionUserData(session).Err? ==> SessionUserData(session).error.statusCode.None?
  {
    if session.customFields.Some? {
      CollectErrorsHaveNoStatus(session.customFields.value);
    }
  }

  /** A repeated key: the later entry's value is the one kept. */
  lemma RepeatedKeyExample()
    ensures var a := CustomField("ciudad", "text", map["text" := Some(TypedValue(Str("Lugo")))]);
      var b := CustomField("ciudad", "dropdown", map["dropdown" := Some(TypedValue(Str("Vigo")))]);
      Collect([a, b]) == Ok(map["ciudad" := Str("Vigo")])
  {
    var a := CustomField("ciudad", "text", map["text" := Some(TypedValue(Str("Lugo")))]);
    var b := CustomField("ciudad", "dropdown", map["dropdown" := Some(TypedValue(Str("Vigo")))]);
    assert [a][..0] == [];
    assert Collect([a]) == Ok(map["ciudad" := Str("Lugo")]);
    assert [a, b][..1] == [a];
    assert FieldValue(b) == Ok(Str("Vigo"));
    assert map["ciudad" := Str("Lugo")]["ciudad" := Str("Vigo")] == map["ciudad" := Str("Vigo")];
  }
}
