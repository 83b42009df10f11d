/** The body schemas of the request and response routes, in the rule language
    of `Validation`, with what a passing body is guaranteed to hold. */
module Schemas {
  import opened Wrappers
  import opened Json
  import opened Text
  import opened Validation
  import ClaudeProcess
  import Records

  const Priorities: seq<string> := ["low", "medium", "high"]

  /** `requestSchema`: the body of `POST /api/requests`. */
  const RequestSchema: Schema := [
    FieldSpec("message", Chars(1, Some(10000), true), Required),
    FieldSpec("priority", OneOf(Priorities), Default(Str("medium"))),
    FieldSpec("user_id", Chars(0, None, false), Optional),
    FieldSpec("metadata", AnyObject, Optional),
    FieldSpec("tags", StringList(50, 10), Optional)]

  /** The statuses a client may set; `processed` is not one of them. */
  const ClientStatuses: seq<string> := ["pending", "processing", "completed", "cancelled"]

  /** `updateRequestSchema`: the body of `PUT /api/requests/:id`. Every key is
      optional and none has a default. */
  const UpdateRequestSchema: Schema := [
    FieldSpec("message", Chars(1, Some(10000), true), Optional),
    FieldSpec("priority", OneOf(Priorities), Optional),
    FieldSpec("status", OneOf(ClientStatuses), Optional),
    FieldSpec("metadata", AnyObject, Optional),
    FieldSpec("tags", StringList(50, 10), Optional)]

  const ResponseStatuses: seq<string> := ["success", "error", "pending", "partial"]

  /** `responseSchema`: the body of `POST /api/responses`. */
  const ResponseSchema: Schema := [
    FieldSpec("request_id", Chars(0, None, false), Required),
    FieldSpec("content", AnyObject, Required),
    FieldSpec("status", OneOf(ResponseStatuses), Default(Str("success"))),
    FieldSpec("error_code", Chars(0, None, false), Optional),
    FieldSpec("metadata", AnyObject, Optional),
    FieldSpec("execution_time", Positive, Optional)]

  /** A present value that passes the rule, or no value. */
  predicate OkOrAbsent(v: Option<Json>, k: Kind) {
    v.None? || Accepts(k, v.value)
  }

  lemma RequestKeysDistinct()
    ensures DistinctKeys(RequestSchema) && DistinctKeys(UpdateRequestSchema)
  {
    assert "message"[0] != "priority"[0] && "message"[0] != "user_id"[0] && "message"[0] != "metadata"[1];
    assert "message"[0] != "tags"[0] && "message"[0] != "status"[0];
    assert "priority"[0] != "user_id"[0] && "priority"[0] != "metadata"[0] && "priority"[0] != "tags"[0] && "priority"[0] != "status"[0];
    assert "user_id"[0] != "metadata"[0] && "user_id"[0] != "tags"[0];
    assert "metadata"[0] != "tags"[0] && "status"[0] != "metadata"[0] && "status"[0] != "tags"[0];
    DistinctByIndex(RequestSchema);
    DistinctByIndex(UpdateRequestSchema);
  }

  /** The keys a validated request body can hold. */
  lemma RequestSpecKeys()
    ensures SpecKeys(RequestSchema) == ["message", "priority", "user_id", "metadata", "tags"]
  {
    var s := RequestSchema;
    assert SpecKeys(s[4..]) == ["tags"] + SpecKeys(s[5..]);
    assert SpecKeys(s[3..]) == ["metadata"] + SpecKeys(s[4..]) by { assert s[3..][1..] == s[4..]; }
    assert SpecKeys(s[2..]) == ["user_id"] + SpecKeys(s[3..]) by { assert s[2..][1..] == s[3..]; }
    assert SpecKeys(s[1..]) == ["priority"] + SpecKeys(s[2..]) by { assert s[1..][1..] == s[2..]; }
    assert s[5..] == [];
  }

  /** A new request's body passes exactly when it has a `message` that is 1 to
      10000 characters once trimmed, a `priority` among low/medium/high if any, a
      non-empty string `user_id` if any, an object `metadata` if any, and at most
      ten `tags` of 1 to 50 characters if any. Other keys are stripped, never
      rejected. */
  lemma RequestBodyExact(input: Json)
    ensures Validate(RequestSchema, input, Defaults).Ok? <==>
      input.Obj? &&
      Field(input, "message").Some? && CharsOk(Field(input, "message").value, 1, Some(10000), true) &&
      OkOrAbsent(Field(input, "priority"), OneOf(Priorities)) &&
      OkOrAbsent(Field(input, "user_id"), Chars(0, None, false)) &&
      OkOrAbsent(Field(input, "metadata"), AnyObject) &&
      OkOrAbsent(Field(input, "tags"), StringList(50, 10))
  {
    ValidateExact(RequestSchema, input, Defaults);
    if input.Obj? {
      var s, fs := RequestSchema, input.fields;
      FiveFields(s, fs);
      assert FieldOk(s[0], fs) <==> Field(input, "message").Some? && CharsOk(Field(input, "message").value, 1, Some(10000), true);
      assert FieldOk(s[1], fs) <==> OkOrAbsent(Field(input, "priority"), OneOf(Priorities));
      assert FieldOk(s[2], fs) <==> OkOrAbsent(Field(input, "user_id"), Chars(0, None, false));
      assert FieldOk(s[3], fs) <==> OkOrAbsent(Field(input, "metadata"), AnyObject);
      assert FieldOk(s[4], fs) <==> OkOrAbsent(Field(input, "tags"), StringList(50, 10));
    }
  }

  /** Every key of a five-key schema passes exactly when each of the five does. */
  lemma FiveFields(s: Schema, fs: seq<(string, Json)>)
    requires |s| == 5
    ensures (forall i | 0 <= i < |s| :: FieldOk(s[i], fs)) <==>
      FieldOk(s[0], fs) && FieldOk(s[1], fs) && FieldOk(s[2], fs) && FieldOk(s[3], fs) && FieldOk(s[4], fs)
  {
  }

  /** A body of blanks is no message: it is rejected. */
  lemma BlankMessageRejected(input: Json)
    requires Field(input, "message").Some? && Field(input, "message").value.Str?
    requires forall i | 0 <= i < |Field(input, "message").value.s| :: IsSpace(Field(input, "message").value.s[i])
    ensures Validate(RequestSchema, input, Defaults).Err?
  {
    TrimBlank(Field(input, "message").value.s);
    RequestBodyExact(input);
  }

  /** A key kept as given: an optional non-empty string, an object or a list of
      strings that passed ends up unchanged. */
  lemma KeptOutcome(spec: FieldSpec, fields: seq<(string, Json)>)
    requires spec.presence == Optional && FieldOk(spec, fields)
    requires spec.kind == Chars(0, None, false) || spec.kind.AnyObject? || spec.kind.StringList?
    ensures Outcome(spec, fields) == Get(fields, spec.key)
  {
  }

  /** A choice that was given and passed is kept as given. */
  lemma ChoiceKept(spec: FieldSpec, fields: seq<(string, Json)>, values: seq<string>)
    requires spec.kind == OneOf(values) && FieldOk(spec, fields) && Get(fields, spec.key).Some?
    ensures Outcome(spec, fields) == Get(fields, spec.key)
  {
  }

  /** A passing message is stored trimmed, which leaves 1 to 10000 characters. */
  lemma MessageOutcome(spec: FieldSpec, fields: seq<(string, Json)>)
    requires spec.kind == Chars(1, Some(10000), true) && FieldOk(spec, fields) && spec.presence == Required
    ensures Get(fields, spec.key).Some? && Get(fields, spec.key).value.Str?
    ensures Outcome(spec, fields) == Some(Str(Trim(Get(fields, spec.key).value.s)))
    ensures var m := Outcome(spec, fields).value.s; 1 <= |m| <= 10000 && Trim(m) == m
  {
    TrimIdempotent(Get(fields, spec.key).value.s);
  }

  /** What a stored request is created from: the trimmed message, a priority that
      defaults to `medium`, and the optional keys as given; nothing else. */
  lemma RequestBodyValues(input: Json)
    requires Validate(RequestSchema, input, Defaults).Ok?
    ensures var v := Validate(RequestSchema, input, Defaults).value;
      var m := Field(v, "message");
      m == Some(Str(Trim(Field(input, "message").value.s))) && 1 <= |m.value.s| <= 10000 && Trim(m.value.s) == m.value.s
    ensures var v := Validate(RequestSchema, input, Defaults).value;
      Field(v, "priority").Some? && Field(v, "priority").value.Str? && Field(v, "priority").value.s in Priorities &&
      (Field(input, "priority").None? ==> Field(v, "priority") == Some(Str("medium"))) &&
      (Field(input, "priority").Some? ==> Field(v, "priority") == Field(input, "priority"))
    ensures var v := Validate(RequestSchema, input, Defaults).value;
      Field(v, "user_id") == Field(input, "user_id") && Field(v, "metadata") == Field(input, "metadata") &&
      Field(v, "tags") == Field(input, "tags")
    ensures var v := Validate(RequestSchema, input, Defaults).value;
      forall q | q !in SpecKeys(RequestSchema) :: Field(v, q) == None
  {
    RequestKeysDistinct();
    ValidateExact(RequestSchema, input, Defaults);
    var s := RequestSchema;
    var fs := input.fields;
    FieldValue(s, input, Defaults, 0);
    MessageOutcome(s[0], fs);
    FieldValue(s, input, Defaults, 1);
    ChoiceOutcome(s[1], fs, Priorities, "medium");
    if Get(fs, "priority").Some? {
      ChoiceKept(s[1], fs, Priorities);
    }
    FieldValue(s, input, Defaults, 2);
    KeptOutcome(s[2], fs);
    FieldValue(s, input, Defaults, 3);
    KeptOutcome(s[3], fs);
    FieldValue(s, input, Defaults, 4);
    KeptOutcome(s[4], fs);
    ValidatedValue(s, input, Defaults);
  }

  /** The update schema has no `processed` status: a body that sets it is
      rejected, whatever the options. */
  lemma UpdateRejectsProcessed(input: Json, opts: Options)
    requires Field(input, "status") == Some(Str("processed"))
    ensures Validate(UpdateRequestSchema, input, opts).Err?
  {
    var s := UpdateRequestSchema;
    assert s[2] == FieldSpec("status", OneOf(ClientStatuses), Optional);
    assert !FieldOk(s[2], FieldsOf(input)) by {
      assert "processed" != "pending" && "processed" != "processing" && "processed" != "completed" && "processed" != "cancelled";
    }
    RejectsOnField(s, input, opts, 2);
  }

  /** An update changes only what it names: a key the body leaves out is absent
      from the validated body too, so no default overwrites the stored value. */
  lemma UpdateHasNoDefaults(input: Json, opts: Options, k: string)
    requires Validate(UpdateRequestSchema, input, opts).Ok?
    requires Field(input, k).None?
    ensures Field(Validate(UpdateRequestSchema, input, opts).value, k).None?
  {
    RequestKeysDistinct();
    var s := UpdateRequestSchema;
    assert s[0].presence == s[1].presence == s[2].presence == s[3].presence == s[4].presence == Optional;
    AbsentStaysAbsent(s, input, opts, k);
  }

  lemma ResponseKeysDistinct()
    ensures DistinctKeys(ResponseSchema)
  {
    assert "request_id"[0] != "content"[0] && "request_id"[0] != "status"[0] && "request_id"[0] != "error_code"[0];
    assert "request_id"[0] != "metadata"[0] && "request_id"[0] != "execution_time"[0];
    assert "content"[0] != "status"[0] && "content"[0] != "error_code"[0] && "content"[0] != "metadata"[0] && "content"[0] != "execution_time"[0];
    assert "status"[0] != "error_code"[0] && "status"[0] != "metadata"[0] && "status"[0] != "execution_time"[0];
    assert "error_code"[1] != "execution_time"[1] && "error_code"[0] != "metadata"[0] && "metadata"[0] != "execution_time"[0];
    DistinctByIndex(ResponseSchema);
  }

  /** The keys a validated response body can hold. */
  lemma ResponseSpecKeys()
    ensures SpecKeys(ResponseSchema) == ["request_id", "content", "status", "error_code", "metadata", "execution_time"]
  {
    var s := ResponseSchema;
    assert SpecKeys(s[5..]) == ["execution_time"] + SpecKeys(s[6..]);
    assert SpecKeys(s[4..]) == ["metadata"] + SpecKeys(s[5..]) by { assert s[4..][1..] == s[5..]; }
    assert SpecKeys(s[3..]) == ["error_code"] + SpecKeys(s[4..]) by { assert s[3..][1..] == s[4..]; }
    assert SpecKeys(s[2..]) == ["status"] + SpecKeys(s[3..]) by { assert s[2..][1..] == s[3..]; }
    assert SpecKeys(s[1..]) == ["content"] + SpecKeys(s[2..]) by { assert s[1..][1..] == s[2..]; }
    assert s[6..] == [];
  }

  /** A stored response always has a non-empty string `request_id` and an object
      `content`, both as given; the `status` given, or `success`; the `error_code`
      and `metadata` as given; the `execution_time` given, converted to a
      positive number; and no key the schema does not declare. */
  lemma ResponseBodyValues(input: Json)
    requires Validate(ResponseSchema, input, Defaults).Ok?
    ensures var v := Validate(ResponseSchema, input, Defaults).value;
      Field(v, "request_id") == Field(input, "request_id") && Field(v, "request_id").Some? &&
      Field(v, "request_id").value.Str? && Field(v, "request_id").value.s != ""
    ensures var v := Validate(ResponseSchema, input, Defaults).value;
      Field(v, "content") == Field(input, "content") && Field(v, "content").Some? && Field(v, "content").value.Obj?
    ensures var v := Validate(ResponseSchema, input, Defaults).value;
      Field(v, "status").Some? && Field(v, "status").value.Str? && Field(v, "status").value.s in ResponseStatuses &&
      (Field(input, "status").None? ==> Field(v, "status") == Some(Str("success"))) &&
      (Field(input, "status").Some? ==> Field(v, "status") == Field(input, "status"))
    ensures var v := Validate(ResponseSchema, input, Defaults).value;
      Field(v, "error_code") == Field(input, "error_code") && Field(v, "metadata") == Field(input, "metadata")
    ensures var v := Validate(ResponseSchema, input, Defaults).value;
      (Field(input, "execution_time").None? ==> Field(v, "execution_time").None?) &&
      (Field(input, "execution_time").Some? ==>
        NumberOf(Field(input, "execution_time").value).Some? &&
        Field(v, "execution_time") == Some(Num(NumberOf(Field(input, "execution_time").value).value)) &&
        Field(v, "execution_time").value.n > 0)
    ensures var v := Validate(ResponseSchema, input, Defaults).value;
      forall q | q !in SpecKeys(ResponseSchema) :: Field(v, q) == None
  {
    ResponseRequestIdValue(input);
    ResponseContentValue(input);
    ResponseStatusValue(input);
    ResponseOptionalValues(input);
    ResponseTimeValue(input);
    ResponseKeysDistinct();
    ValidatedValue(ResponseSchema, input, Defaults);
  }

  /** The request id is kept as given and is a non-empty string. */
  lemma ResponseRequestIdValue(input: Json)
    requires Validate(ResponseSchema, input, Defaults).Ok?
    ensures var v := Validate(ResponseSchema, input, Defaults).value;
      Field(v, "request_id") == Field(input, "request_id") && Field(v, "request_id").Some? &&
      Field(v, "request_id").value.Str? && Field(v, "request_id").value.s != ""
  {
    ResponseKeysDistinct();
    FieldValue(ResponseSchema, input, Defaults, 0);
  }

  /** The content is kept as given and is an object. */
  lemma ResponseContentValue(input: Json)
    requires Validate(ResponseSchema, input, Defaults).Ok?
    ensures var v := Validate(ResponseSchema, input, Defaults).value;
      Field(v, "content") == Field(input, "content") && Field(v, "content").Some? && Field(v, "content").value.Obj?
  {
    ResponseKeysDistinct();
    FieldValue(ResponseSchema, input, Defaults, 1);
  }

  /** The status is the one given, which is an allowed one, or `success` when
      the body has none. */
  lemma ResponseStatusValue(input: Json)
    requires Validate(ResponseSchema, input, Defaults).Ok?
    ensures var v := Validate(ResponseSchema, input, Defaults).value;
      Field(v, "status").Some? && Field(v, "status").value.Str? && Field(v, "status").value.s in ResponseStatuses &&
      (Field(input, "status").None? ==> Field(v, "status") == Some(Str("success"))) &&
      (Field(input, "status").Some? ==> Field(v, "status") == Field(input, "status"))
  {
    ResponseKeysDistinct();
    FieldValue(ResponseSchema, input, Defaults, 2);
    if Field(input, "status").Some? {
      ChoiceKept(ResponseSchema[2], input.fields, ResponseStatuses);
    }
  }

  /** The error code and the metadata are kept as given. */
  lemma ResponseOptionalValues(input: Json)
    requires Validate(ResponseSchema, input, Defaults).Ok?
    ensures var v := Validate(ResponseSchema, input, Defaults).value;
      Field(v, "error_code") == Field(input, "error_code") && Field(v, "metadata") == Field(input, "metadata")
  {
    ResponseKeysDistinct();
    var s := ResponseSchema;
    FieldValue(s, input, Defaults, 3);
    KeptOutcome(s[3], input.fields);
    FieldValue(s, input, Defaults, 4);
    KeptOutcome(s[4], input.fields);
  }

  /** An execution time is present exactly when one was given, and is then the
      given one read as a number, which is positive. */
  lemma ResponseTimeValue(input: Json)
    requires Validate(ResponseSchema, input, Defaults).Ok?
    ensures var v := Validate(ResponseSchema, input, Defaults).value;
      (Field(input, "execution_time").None? ==> Field(v, "execution_time").None?) &&
      (Field(input, "execution_time").Some? ==>
        NumberOf(Field(input, "execution_time").value).Some? &&
        Field(v, "execution_time") == Some(Num(NumberOf(Field(input, "execution_time").value).value)) &&
        Field(v, "execution_time").value.n > 0)
  {
    ResponseKeysDistinct();
    FieldValue(ResponseSchema, input, Defaults, 5);
  }

  /** A validated request body is an object with distinct keys and no `id`: unknown
      keys are stripped. */
  lemma RequestValueShape(input: Json)
    requires Validate(RequestSchema, input, Defaults).Ok?
    ensures var v := Validate(RequestSchema, input, Defaults).value;
      v.Obj? && UniqueKeys(v.fields) && Field(v, "id").None?
  {
    RequestKeysDistinct();
    RequestSpecKeys();
    ValidatedValue(RequestSchema, input, Defaults);
    ValidatedUnique(RequestSchema, input, Defaults);
  }

  /** A validated response body is an object with distinct keys and no `id`: unknown
      keys are stripped. */
  lemma ResponseValueShape(input: Json)
    requires Validate(ResponseSchema, input, Defaults).Ok?
    ensures var v := Validate(ResponseSchema, input, Defaults).value;
      v.Obj? && UniqueKeys(v.fields) && Field(v, "id").None?
  {
    ResponseKeysDistinct();
    ResponseSpecKeys();
    ValidatedValue(ResponseSchema, input, Defaults);
    ValidatedUnique(ResponseSchema, input, Defaults);
  }

  /** The helper script's response body passes the response schema whenever the
      request id is a non-empty string. */
  lemma HelperResponseAccepted(id: string, message: Json, kind: string, at: string)
    requires id != ""
    ensures Validate(ResponseSchema, ClaudeProcess.ResponsePayload(Str(id), message, kind, at), Defaults).Ok?
  {
    var p := ClaudeProcess.ResponsePayload(Str(id), message, kind, at);
    var s, fs := ResponseSchema, p.fields;
    PayloadLacks(fs, "error_code");
    PayloadLacks(fs, "metadata");
    PayloadLacks(fs, "execution_time");
    ValidateExact(ResponseSchema, p, Defaults);
    SixFields(s, fs);
    assert FieldOk(s[0], fs) && FieldOk(s[1], fs);
    assert FieldOk(s[2], fs) by { assert Str("success").s in ResponseStatuses; }
  }

  /** The helper's body has no key outside its three. */
  lemma PayloadLacks(fs: seq<(string, Json)>, k: string)
    requires Keys(fs) == ["request_id", "content", "status"]
    requires |k| > 0 && k[0] !in "rcs"
    ensures Get(fs, k).None?
  {
    assert k != "request_id" && k != "content" && k != "status" by {
      assert "request_id"[0] == 'r' && "content"[0] == 'c' && "status"[0] == 's';
    }
  }

  /** Every key of a six-key schema passes exactly when each of the six does. */
  lemma SixFields(s: Schema, fs: seq<(string, Json)>)
    requires |s| == 6
    ensures (forall i | 0 <= i < |s| :: FieldOk(s[i], fs)) <==>
      FieldOk(s[0], fs) && FieldOk(s[1], fs) && FieldOk(s[2], fs) && FieldOk(s[3], fs) && FieldOk(s[4], fs) && FieldOk(s[5], fs)
  {
  }

  /** The status update the helper script sends after marking a request is always
      turned away with `400`: the update schema does not allow `processed`. */
  lemma HelperStatusUpdateRejected(read: Records.Read, requestId: Json, at: string)
    requires ClaudeProcess.MarkAsProcessed(read, requestId, at, true).statusUpdate.Some?
    ensures var u := ClaudeProcess.MarkAsProcessed(read, requestId, at, true).statusUpdate.value;
      Middleware(Body, UpdateRequestSchema, u.body, Defaults).Reject? &&
      Middleware(Body, UpdateRequestSchema, u.body, Defaults).response.status == 400
  {
    var body := ClaudeProcess.ProcessedStatus;
    assert Field(body, "status") == Some(Str("processed"));
    UpdateRejectsProcessed(body, Defaults);
  }
}
