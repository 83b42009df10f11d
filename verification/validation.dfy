/** Request validation: the three middlewares that check the body, the query or
    the route parameters against a Joi object schema, and the schemas they share.
    Joi itself is outside the model; the subset the schemas use is written out
    here as rules over JSON values, with a procedural checker that reports each
    violation and a declarative reading (`Conforms`) it is proved against. */
module Validation {
  import opened Wrappers
  import opened Json
  import opened Text
  import opened Http

  /** The Joi options the middleware passes: its defaults, overridden by the
      caller's. */
  datatype Options = Options(abortEarly: bool, allowUnknown: bool, stripUnknown: bool)

  /** `{abortEarly: false, allowUnknown: false, stripUnknown: true}`. */
  const Defaults: Options := Options(false, false, true)

  /** The value rules the schemas are built from:
      `string().valid(...)`; `string().min(lo).max(hi)`, trimmed first when
      `trim()` is given; `number().integer().min(lo).max(hi)`;
      `number().positive()`; `object()`; `array().items(string().max(m)).max(n)`. */
  datatype Kind =
    | OneOf(values: seq<string>)
    | Chars(minLen: nat, maxLen: Option<nat>, trim: bool)
    | Whole(min: int, max: Option<int>)
    | Positive
    | AnyObject
    | StringList(itemMax: nat, maxItems: nat)

  /** `required()`, `optional()` or `default(v)`. */
  datatype Presence = Required | Optional | Default(value: Json)

  datatype FieldSpec = FieldSpec(key: string, kind: Kind, presence: Presence)

  /** `Joi.object({...})`: its keys in declaration order. */
  type Schema = seq<FieldSpec>

  /** What went wrong, named by Joi's error code. */
  datatype Violation =
    | Absent | Empty | NotString | NotNumber | NotAllowed | TooShort | TooLong
    | Below | Above | NotPositive | NotObject | NotArray | TooMany | Unknown

  function Code(v: Violation): string {
    match v
    case Absent => "any.required"
    case Empty => "string.empty"
    case NotString => "string.base"
    case NotNumber => "number.base"
    case NotAllowed => "any.only"
    case TooShort => "string.min"
    case TooLong => "string.max"
    case Below => "number.min"
    case Above => "number.max"
    case NotPositive => "number.positive"
    case NotObject => "object.base"
    case NotArray => "array.base"
    case TooMany => "array.max"
    case Unknown => "object.unknown"
  }

  /** One entry of Joi's `error.details`: where, what, and the offending value. */
  datatype Detail = Detail(path: seq<string>, violation: Violation, value: Option<Json>)

  // ---------------------------------------------------------------------------
  // Single values
  // ---------------------------------------------------------------------------

  predicate AllDigits(s: string) {
    forall i | 0 <= i < |s| :: IsDigit(s[i])
  }

  /** A number, or, since Joi converts, a string of decimal digits with an
      optional minus sign. */
  function NumberOf(v: Json): Option<int> {
    match v
    case Num(n) => Some(n)
    case Str(s) =>
      if |s| > 0 && AllDigits(s) then Some(ParseDigits(s))
      else if |s| > 1 && s[0] == '-' && AllDigits(s[1..]) then Some(-(ParseDigits(s[1..]) as int))
      else None
    case _ => None
  }

  function Trimmed(s: string, trim: bool): string {
    if trim then Trim(s) else s
  }

  /** What a string rule accepts: a string that is not empty (after trimming,
      when asked) and whose length is within the bounds. */
  predicate CharsOk(v: Json, lo: nat, hi: Option<nat>, trim: bool) {
    v.Str? && var t := Trimmed(v.s, trim); t != "" && lo <= |t| && (hi.None? || |t| <= hi.value)
  }

  /** What each rule accepts. */
  predicate Accepts(k: Kind, v: Json) {
    match k
    case OneOf(vs) => v.Str? && v.s in vs
    case Chars(lo, hi, trim) => CharsOk(v, lo, hi, trim)
    case Whole(lo, hi) => NumberOf(v).Some? && lo <= NumberOf(v).value && (hi.None? || NumberOf(v).value <= hi.value)
    case Positive => NumberOf(v).Some? && NumberOf(v).value > 0
    case AnyObject => v.Obj?
    case StringList(m, n) => v.Arr? && |v.items| <= n && forall j | 0 <= j < |v.items| :: CharsOk(v.items[j], 0, Some(m), false)
  }

  /** The value that replaces an accepted one: trimmed strings and converted
      numbers. */
  function Converted(k: Kind, v: Json): Json {
    match k
    case Chars(_, _, trim) => if v.Str? then Str(Trimmed(v.s, trim)) else v
    case Whole(_, _) => if NumberOf(v).Some? then Num(NumberOf(v).value) else v
    case Positive => if NumberOf(v).Some? then Num(NumberOf(v).value) else v
    case _ => v
  }

  /** A string rule's check; an empty string is reported before the bounds. */
  function CheckChars(path: seq<string>, v: Json, lo: nat, hi: Option<nat>, trim: bool): (r: Result<Json, seq<Detail>>)
    ensures r.Ok? <==> CharsOk(v, lo, hi, trim)
    ensures r.Ok? ==> r.value == Str(Trimmed(v.s, trim))
    ensures r.Err? ==> |r.error| == 1
  {
    if !v.Str? then Err([Detail(path, NotString, Some(v))])
    else
      var t := Trimmed(v.s, trim);
      if t == "" then Err([Detail(path, Empty, Some(Str(t)))])
      else if |t| < lo then Err([Detail(path, TooShort, Some(Str(t)))])
      else if hi.Some? && |t| > hi.value then Err([Detail(path, TooLong, Some(Str(t)))])
      else Ok(Str(t))
  }

  /** The item checks of an array rule, from index `i` on; an item's path ends
      with its index. */
  function ItemDetails(path: seq<string>, items: seq<Json>, itemMax: nat, i: nat): (ds: seq<Detail>)
    requires i <= |items|
    ensures ds == [] <==> forall j | i <= j < |items| :: CharsOk(items[j], 0, Some(itemMax), false)
    decreases |items| - i
  {
    if i == |items| then []
    else
      var own := CheckChars(path + [Digits(i)], items[i], 0, Some(itemMax), false);
      (if own.Err? then own.error else []) + ItemDetails(path, items, itemMax, i + 1)
  }

  /** One rule applied to a present value: the converted value, or the
      violations, at least one. A value outside a `valid()` list is reported as
      such first; Joi then still applies the string type's own check, which adds
      a second detail for a non-string or an empty string. */
  function Check(k: Kind, path: seq<string>, v: Json): (r: Result<Json, seq<Detail>>)
    ensures r.Ok? <==> Accepts(k, v)
    ensures r.Ok? ==> r.value == Converted(k, v)
    ensures r.Err? ==> |r.error| > 0
    ensures k.OneOf? && r.Err? ==>
      && r.error[0] == Detail(path, NotAllowed, Some(v))
      && (!v.Str? ==> r.error == [Detail(path, NotAllowed, Some(v)), Detail(path, NotString, Some(v))])
      && (v == Str("") ==> r.error == [Detail(path, NotAllowed, Some(v)), Detail(path, Empty, Some(v))])
      && (v.Str? && v.s != "" ==> r.error == [Detail(path, NotAllowed, Some(v))])
  {
    match k
    case OneOf(vs) =>
      if v.Str? && v.s in vs then Ok(v)
      else
        var base := if !v.Str? then [Detail(path, NotString, Some(v))]
                    else if v.s == "" then [Detail(path, Empty, Some(v))]
                    else [];
        Err([Detail(path, NotAllowed, Some(v))] + base)
    case Chars(lo, hi, trim) => CheckChars(path, v, lo, hi, trim)
    case Whole(lo, hi) =>
      (match NumberOf(v)
       case None => Err([Detail(path, NotNumber, Some(v))])
       case Some(n) =>
         if n < lo then Err([Detail(path, Below, Some(Num(n)))])
         else if hi.Some? && n > hi.value then Err([Detail(path, Above, Some(Num(n)))])
         else Ok(Num(n)))
    case Positive =>
      (match NumberOf(v)
       case None => Err([Detail(path, NotNumber, Some(v))])
       case Some(n) => if n <= 0 then Err([Detail(path, NotPositive, Some(Num(n)))]) else Ok(Num(n)))
    case AnyObject =>
      if v.Obj? then Ok(v) else Err([Detail(path, NotObject, Some(v))])
    case StringList(m, n) =>
      if !v.Arr? then Err([Detail(path, NotArray, Some(v))])
      else
        var ds := ItemDetails(path, v.items, m, 0) + (if |v.items| > n then [Detail(path, TooMany, Some(v))] else []);
        if ds == [] then Ok(v) else Err(ds)
  }

  // ---------------------------------------------------------------------------
  // Objects
  // ---------------------------------------------------------------------------

  /** A key of the object passes its rule: absent is fine unless required. */
  predicate FieldOk(spec: FieldSpec, fields: seq<(string, Json)>) {
    match Get(fields, spec.key)
    case None => !spec.presence.Required?
    case Some(v) => Accepts(spec.kind, v)
  }

  /** What the validated object holds under a key: the converted value, the
      default when absent, or nothing. */
  function Outcome(spec: FieldSpec, fields: seq<(string, Json)>): Option<Json> {
    match Get(fields, spec.key)
    case None => if spec.presence.Default? then Some(spec.presence.value) else None
    case Some(v) => Some(Converted(spec.kind, v))
  }

  function CheckField(spec: FieldSpec, fields: seq<(string, Json)>): (r: Result<Option<Json>, seq<Detail>>)
    ensures r.Ok? <==> FieldOk(spec, fields)
    ensures r.Ok? ==> r.value == Outcome(spec, fields)
    ensures r.Err? ==> |r.error| > 0
  {
    match Get(fields, spec.key)
    case None =>
      (match spec.presence
       case Required => Err([Detail([spec.key], Absent, None)])
       case Optional => Ok(None)
       case Default(d) => Ok(Some(d)))
    case Some(v) =>
      match Check(spec.kind, [spec.key], v)
      case Err(ds) => Err(ds)
      case Ok(w) => Ok(Some(w))
  }

  function SpecKeys(schema: Schema): seq<string>
    decreases |schema|
  {
    if |schema| == 0 then [] else [schema[0].key] + SpecKeys(schema[1..])
  }

  /** No key is declared twice. */
  predicate DistinctKeys(schema: Schema)
    decreases |schema|
  {
    |schema| == 0 || (schema[0].key !in SpecKeys(schema[1..]) && DistinctKeys(schema[1..]))
  }

  /** Keys that differ pairwise are distinct keys. */
  lemma {:induction false} DistinctByIndex(schema: Schema)
    requires forall i, j | 0 <= i < j < |schema| :: schema[i].key != schema[j].key
    ensures DistinctKeys(schema)
    decreases |schema|
  {
    if |schema| > 0 {
      SpecKeysIn(schema[1..], schema[0].key);
      forall i, j | 0 <= i < j < |schema[1..]|
        ensures schema[1..][i].key != schema[1..][j].key
      {
        assert schema[1..][i] == schema[i + 1] && schema[1..][j] == schema[j + 1];
      }
      DistinctByIndex(schema[1..]);
    }
  }

  lemma {:induction false} SpecKeysIn(schema: Schema, q: string)
    ensures q in SpecKeys(schema) <==> exists i | 0 <= i < |schema| :: schema[i].key == q
    decreases |schema|
  {
    if |schema| > 0 {
      SpecKeysIn(schema[1..], q);
      if exists i | 0 <= i < |schema[1..]| :: schema[1..][i].key == q {
        var i :| 0 <= i < |schema[1..]| && schema[1..][i].key == q;
        assert schema[i + 1].key == q;
      }
      if exists i | 0 <= i < |schema| :: schema[i].key == q {
        var i :| 0 <= i < |schema| && schema[i].key == q;
        if i > 0 { assert schema[1..][i - 1].key == q; }
      }
    }
  }

  /** The declared keys checked in order: the validated properties and every
      violation found. */
  datatype Checked = Checked(out: seq<(string, Json)>, details: seq<Detail>)

  function CheckFields(schema: Schema, fields: seq<(string, Json)>): Checked
    decreases |schema|
  {
    if |schema| == 0 then Checked([], [])
    else
      var c := CheckFields(schema[1..], fields);
      match CheckField(schema[0], fields)
      case Err(ds) => Checked(c.out, ds + c.details)
      case Ok(o) => Checked(PutOpt(schema[0].key, o, c.out), c.details)
  }

  /** The checks find nothing exactly when every key passes; the validated
      properties are the outcomes of the keys that pass, and nothing else. */
  lemma {:induction false} CheckFieldsExact(schema: Schema, fields: seq<(string, Json)>)
    ensures CheckFields(schema, fields).details == [] <==> forall i | 0 <= i < |schema| :: FieldOk(schema[i], fields)
    ensures forall q | q !in SpecKeys(schema) :: Get(CheckFields(schema, fields).out, q) == None
    ensures DistinctKeys(schema) ==> forall i | 0 <= i < |schema| && FieldOk(schema[i], fields) ::
      Get(CheckFields(schema, fields).out, schema[i].key) == Outcome(schema[i], fields)
    decreases |schema|
  {
    if |schema| > 0 {
      var tail := schema[1..];
      CheckFieldsExact(tail, fields);
      var c := CheckFields(tail, fields);
      var here := CheckField(schema[0], fields);
      forall i | 0 < i < |schema| ensures schema[i] == tail[i - 1] { }
      if (forall i | 0 <= i < |schema| :: FieldOk(schema[i], fields)) {
        assert FieldOk(schema[0], fields);
        assert forall i | 0 <= i < |tail| :: FieldOk(tail[i], fields) by {
          forall i | 0 <= i < |tail| ensures FieldOk(tail[i], fields) { assert tail[i] == schema[i + 1]; }
        }
      }
      if DistinctKeys(schema) {
        forall i | 0 <= i < |schema| && FieldOk(schema[i], fields)
          ensures Get(CheckFields(schema, fields).out, schema[i].key) == Outcome(schema[i], fields)
        {
          if i == 0 {
            assert Get(c.out, schema[0].key) == None;
          } else {
            SpecKeysIn(tail, schema[i].key);
            assert tail[i - 1].key == schema[i].key;
            SpecKeysIn(schema, schema[i].key);
          }
        }
      }
    }
  }

  /** Distinct declared keys give a validated object with each key once. */
  lemma {:induction false} CheckFieldsUnique(schema: Schema, fields: seq<(string, Json)>)
    requires DistinctKeys(schema)
    ensures UniqueKeys(CheckFields(schema, fields).out)
    decreases |schema|
  {
    if |schema| > 0 {
      var tail := schema[1..];
      CheckFieldsUnique(tail, fields);
      CheckFieldsExact(tail, fields);
      var c := CheckFields(tail, fields);
      var o := CheckField(schema[0], fields);
      if o.Ok? && o.value.Some? {
        var out := [(schema[0].key, o.value.value)] + c.out;
        assert out[1..] == c.out;
        assert Get(c.out, schema[0].key) == None;
      }
    }
  }

  /** Keys of the object the schema does not declare, in the object's order. */
  function Unknowns(fields: seq<(string, Json)>, known: seq<string>): seq<(string, Json)>
    decreases |fields|
  {
    if |fields| == 0 then []
    else (if fields[0].0 in known then [] else [fields[0]]) + Unknowns(fields[1..], known)
  }

  /** There are no unknown keys exactly when every key is declared; an undeclared
      key reads the same in the unknown part as in the object. */
  lemma {:induction false} UnknownsExact(fields: seq<(string, Json)>, known: seq<string>)
    ensures Unknowns(fields, known) == [] <==> forall k | k in Keys(fields) :: k in known
    ensures forall q | q in known :: Get(Unknowns(fields, known), q) == None
    ensures forall q | q !in known :: Get(Unknowns(fields, known), q) == Get(fields, q)
    decreases |fields|
  {
    if |fields| > 0 {
      UnknownsExact(fields[1..], known);
      assert Keys(fields) == [fields[0].0] + Keys(fields[1..]);
      var rest := Unknowns(fields[1..], known);
      forall q ensures Get(Unknowns(fields, known), q) == (if fields[0].0 in known then Get(rest, q) else (if q == fields[0].0 then Some(fields[0].1) else Get(rest, q))) {
        if fields[0].0 !in known {
          assert fields[0] == (fields[0].0, fields[0].1);
          assert Unknowns(fields, known) == [(fields[0].0, fields[0].1)] + rest;
          GetSkip(fields[0].0, fields[0].1, rest, q);
        } else {
          assert Unknowns(fields, known) == [] + rest == rest;
        }
      }
    }
  }

  function UnknownDetails(extra: seq<(string, Json)>): (ds: seq<Detail>)
    ensures |ds| == |extra|
  {
    seq(|extra|, i requires 0 <= i < |extra| => Detail([extra[i].0], Unknown, Some(extra[i].1)))
  }

  /** `schema.validate(input, options)`: the validated value, or the violations
      (only the first when aborting early). Declared keys are checked in order,
      then the undeclared ones: `stripUnknown` drops them before `allowUnknown`
      is looked at, so with it set they are never an error. */
  function Validate(schema: Schema, input: Json, opts: Options): (r: Result<Json, seq<Detail>>)
    ensures r.Ok? ==> r.value.Obj?
  {
    if !input.Obj? then Err([Detail([], NotObject, Some(input))])
    else
      var c := CheckFields(schema, input.fields);
      var extra := Unknowns(input.fields, SpecKeys(schema));
      var rejected := if opts.stripUnknown || opts.allowUnknown then [] else UnknownDetails(extra);
      var all := c.details + rejected;
      if all != [] then Err(if opts.abortEarly then all[..1] else all)
      else Ok(Obj(c.out + (if opts.stripUnknown then [] else extra)))
  }

  /** The declarative reading: an object every declared key of which passes,
      with no undeclared keys unless they are stripped or allowed. */
  predicate Conforms(schema: Schema, input: Json, opts: Options) {
    input.Obj? &&
    (forall i | 0 <= i < |schema| :: FieldOk(schema[i], input.fields)) &&
    (opts.stripUnknown || opts.allowUnknown || forall k | k in Keys(input.fields) :: k in SpecKeys(schema))
  }

  /** Validation succeeds exactly on conforming input; a failure reports at least
      one violation, and exactly one when aborting early. */
  lemma ValidateExact(schema: Schema, input: Json, opts: Options)
    ensures Validate(schema, input, opts).Ok? <==> Conforms(schema, input, opts)
    ensures Validate(schema, input, opts).Err? ==>
      |Validate(schema, input, opts).error| > 0 && (opts.abortEarly ==> |Validate(schema, input, opts).error| == 1)
  {
    if input.Obj? {
      CheckFieldsExact(schema, input.fields);
      UnknownsExact(input.fields, SpecKeys(schema));
    }
  }

  /** Without defaults, a key the input leaves out stays out when unknown keys are
      stripped or kept: validation only converts what is there. */
  lemma AbsentStaysAbsent(schema: Schema, input: Json, opts: Options, k: string)
    requires DistinctKeys(schema) && Validate(schema, input, opts).Ok?
    requires forall i | 0 <= i < |schema| :: !schema[i].presence.Default?
    requires Field(input, k).None?
    ensures Field(Validate(schema, input, opts).value, k).None?
  {
    SpecKeysIn(schema, k);
    if i :| 0 <= i < |schema| && schema[i].key == k {
      FieldValue(schema, input, opts, i);
    } else {
      ValidatedValue(schema, input, opts);
    }
  }

  /** One failing key is enough for validation to fail. */
  lemma RejectsOnField(schema: Schema, input: Json, opts: Options, i: nat)
    requires i < |schema| && !FieldOk(schema[i], FieldsOf(input))
    ensures Validate(schema, input, opts).Err?
  {
    ValidateExact(schema, input, opts);
  }

  /** The validated object holds, under each declared key, that key's outcome;
      undeclared keys are gone when stripped and kept as they were otherwise. */
  lemma ValidatedValue(schema: Schema, input: Json, opts: Options)
    requires DistinctKeys(schema) && Validate(schema, input, opts).Ok?
    ensures forall i | 0 <= i < |schema| ::
      Field(Validate(schema, input, opts).value, schema[i].key) == Outcome(schema[i], input.fields)
    ensures forall q | q !in SpecKeys(schema) ::
      Field(Validate(schema, input, opts).value, q) == if opts.stripUnknown then None else Field(input, q)
  {
    ValidateExact(schema, input, opts);
    CheckFieldsExact(schema, input.fields);
    UnknownsExact(input.fields, SpecKeys(schema));
    var c := CheckFields(schema, input.fields);
    var extra := if opts.stripUnknown then [] else Unknowns(input.fields, SpecKeys(schema));
    assert Validate(schema, input, opts).value.fields == c.out + extra;
    forall i | 0 <= i < |schema|
      ensures Field(Validate(schema, input, opts).value, schema[i].key) == Outcome(schema[i], input.fields)
    {
      GetAppend(c.out, extra, schema[i].key);
      SpecKeysIn(schema, schema[i].key);
      assert Get(extra, schema[i].key) == None;
    }
    forall q | q !in SpecKeys(schema)
      ensures Field(Validate(schema, input, opts).value, q) == if opts.stripUnknown then None else Field(input, q)
    {
      GetAppend(c.out, extra, q);
    }
  }

  /** A stripped validated object holds each key once. */
  lemma ValidatedUnique(schema: Schema, input: Json, opts: Options)
    requires DistinctKeys(schema) && Validate(schema, input, opts).Ok? && opts.stripUnknown
    ensures UniqueKeys(Validate(schema, input, opts).value.fields)
  {
    CheckFieldsUnique(schema, input.fields);
    var c := CheckFields(schema, input.fields);
    assert Validate(schema, input, opts).value.fields == c.out + [];
    assert c.out + [] == c.out;
  }

  // ---------------------------------------------------------------------------
  // The middlewares
  // ---------------------------------------------------------------------------

  /** Which part of the request a middleware checks. */
  datatype Source = Body | Query | Params

  /** The `error` and `message` of a rejection. */
  function Title(src: Source): (string, string) {
    match src
    case Body => ("Validation Error", "Request data validation failed")
    case Query => ("Query Validation Error", "Query parameters validation failed")
    case Params => ("Parameter Validation Error", "URL parameters validation failed")
  }

  /** `detail.path.join('.')`. */
  function Dotted(path: seq<string>): string
    decreases |path|
  {
    if |path| == 0 then "" else if |path| == 1 then path[0] else path[0] + "." + Dotted(path[1..])
  }

  /** `{field, message, value}`; an `undefined` value is left out. */
  function DetailJson(d: Detail): (j: Json)
    ensures Field(j, "field") == Some(Str(Dotted(d.path)))
    ensures Field(j, "value") == d.value
  {
    assert "field"[0] != "message"[0] && "field"[0] != "value"[0] && "message"[0] != "value"[0];
    Obj(Put("field", Str(Dotted(d.path)), Put("message", Str(Code(d.violation)), PutOpt("value", d.value, []))))
  }

  /** What a middleware does: call `next` with the validated value in place of
      the input, or answer `400` itself. */
  datatype Gate = Pass(value: Json) | Reject(response: Response)

  /** `validate`, `validateQuery` and `validateParams`. */
  function Middleware(src: Source, schema: Schema, input: Json, opts: Options): (g: Gate)
    ensures g.Pass? <==> Conforms(schema, input, opts)
    ensures g.Pass? ==> Validate(schema, input, opts) == Ok(g.value)
    ensures g.Reject? <==> Validate(schema, input, opts).Err?
    ensures g.Reject? ==> g.response.status == 400
    ensures g.Reject? ==> Field(g.response.body, "error") == Some(Str(Title(src).0))
    ensures g.Reject? ==>
      var ds := Validate(schema, input, opts).error;
      Field(g.response.body, "details") == Some(Arr(seq(|ds|, i requires 0 <= i < |ds| => DetailJson(ds[i]))))
      && |ds| > 0 && (opts.abortEarly ==> |ds| == 1)
  {
    ValidateExact(schema, input, opts);
    match Validate(schema, input, opts)
    case Ok(v) => Pass(v)
    case Err(ds) =>
      var details := Arr(seq(|ds|, i requires 0 <= i < |ds| => DetailJson(ds[i])));
      assert "error"[0] != "message"[0] && "error"[0] != "details"[0] && "message"[0] != "details"[0];
      Reject(Response(400, Obj(Put("error", Str(Title(src).0), Put("message", Str(Title(src).1), Put("details", details, []))))))
  }

  // ---------------------------------------------------------------------------
  // commonSchemas
  // ---------------------------------------------------------------------------

  /** `commonSchemas.id`. */
  const IdParams: Schema := [FieldSpec("id", Chars(0, None, false), Required)]

  /** `commonSchemas.pagination`. */
  const Pagination: Schema := [
    FieldSpec("limit", Whole(1, Some(100)), Default(Num(20))),
    FieldSpec("offset", Whole(0, None), Default(Num(0))),
    FieldSpec("sort", OneOf(["created", "updated", "priority"]), Default(Str("created"))),
    FieldSpec("order", OneOf(["asc", "desc"]), Default(Str("desc")))]

  /** `commonSchemas.search`. */
  const Search: Schema := [
    FieldSpec("q", Chars(1, Some(500), false), Required),
    FieldSpec("limit", Whole(1, Some(100)), Default(Num(20)))]

  /** The list routes' query options: `{allowUnknown: true}` over the defaults. */
  const ListQuery: Options := Options(false, true, true)

  /** A present value within integer bounds. */
  predicate WithinOrAbsent(v: Option<Json>, lo: int, hi: Option<int>) {
    v.None? || (NumberOf(v.value).Some? && lo <= NumberOf(v.value).value && (hi.None? || NumberOf(v.value).value <= hi.value))
  }

  predicate OneOfOrAbsent(v: Option<Json>, values: seq<string>) {
    v.None? || (v.value.Str? && v.value.s in values)
  }

  /** A pagination query passes exactly when `limit` is an integer in 1..100,
      `offset` one of at least 0, `sort` one of created/updated/priority and
      `order` asc or desc, each where given. */
  lemma PaginationExact(input: Json, opts: Options)
    requires opts.stripUnknown
    ensures Validate(Pagination, input, opts).Ok? <==>
      input.Obj? &&
      WithinOrAbsent(Field(input, "limit"), 1, Some(100)) &&
      WithinOrAbsent(Field(input, "offset"), 0, None) &&
      OneOfOrAbsent(Field(input, "sort"), ["created", "updated", "priority"]) &&
      OneOfOrAbsent(Field(input, "order"), ["asc", "desc"])
  {
    ValidateExact(Pagination, input, opts);
    if input.Obj? {
      var s := Pagination;
      assert s[0].key == "limit" && s[1].key == "offset" && s[2].key == "sort" && s[3].key == "order";
    }
  }

  /** A declared key's outcome in a validated object; the key itself passed. */
  lemma FieldValue(schema: Schema, input: Json, opts: Options, i: nat)
    requires DistinctKeys(schema) && Validate(schema, input, opts).Ok? && i < |schema|
    ensures FieldOk(schema[i], input.fields)
    ensures Field(Validate(schema, input, opts).value, schema[i].key) == Outcome(schema[i], input.fields)
  {
    ValidateExact(schema, input, opts);
    ValidatedValue(schema, input, opts);
  }

  /** A passing integer key with an in-range default ends up a number in range. */
  lemma NumberOutcome(spec: FieldSpec, fields: seq<(string, Json)>, lo: int, hi: Option<int>, d: int)
    requires spec.kind == Whole(lo, hi) && spec.presence == Default(Num(d)) && FieldOk(spec, fields)
    requires lo <= d && (hi.None? || d <= hi.value)
    ensures Outcome(spec, fields).Some? && Outcome(spec, fields).value.Num?
    ensures lo <= Outcome(spec, fields).value.n && (hi.None? || Outcome(spec, fields).value.n <= hi.value)
    ensures Get(fields, spec.key).None? ==> Outcome(spec, fields) == Some(Num(d))
  {
  }

  /** A passing choice key with an allowed default ends up an allowed string. */
  lemma ChoiceOutcome(spec: FieldSpec, fields: seq<(string, Json)>, values: seq<string>, d: string)
    requires spec.kind == OneOf(values) && spec.presence == Default(Str(d)) && FieldOk(spec, fields) && d in values
    ensures Outcome(spec, fields).Some? && Outcome(spec, fields).value.Str? && Outcome(spec, fields).value.s in values
    ensures Get(fields, spec.key).None? ==> Outcome(spec, fields) == Some(Str(d))
  {
  }

  /** After validation the handlers find every pagination value present: what
      the caller gave, as a number where it is one, or the default 20, 0,
      `created` and `desc`. */
  lemma PaginationValues(input: Json, opts: Options)
    requires Validate(Pagination, input, opts).Ok?
    ensures var v := Validate(Pagination, input, opts).value;
      Field(v, "limit").Some? && Field(v, "limit").value.Num? && 1 <= Field(v, "limit").value.n <= 100 &&
      Field(v, "offset").Some? && Field(v, "offset").value.Num? && 0 <= Field(v, "offset").value.n &&
      Field(v, "sort").Some? && Field(v, "sort").value.Str? && Field(v, "sort").value.s in ["created", "updated", "priority"] &&
      Field(v, "order").Some? && Field(v, "order").value.Str? && Field(v, "order").value.s in ["asc", "desc"]
    ensures var v := Validate(Pagination, input, opts).value;
      (Field(input, "limit").None? ==> Field(v, "limit") == Some(Num(20))) &&
      (Field(input, "offset").None? ==> Field(v, "offset") == Some(Num(0))) &&
      (Field(input, "sort").None? ==> Field(v, "sort") == Some(Str("created"))) &&
      (Field(input, "order").None? ==> Field(v, "order") == Some(Str("desc")))
  {
    PaginationNumbers(input, opts);
    PaginationChoices(input, opts);
  }

  lemma PaginationKeysDistinct()
    ensures DistinctKeys(Pagination)
  {
    assert "limit"[0] != "offset"[0] && "limit"[0] != "sort"[0] && "limit"[0] != "order"[0];
    assert "offset"[1] != "sort"[1] && "offset"[1] != "order"[1] && "sort"[0] != "order"[0];
  }

  /** The `limit` and `offset` halves of `PaginationValues`. */
  lemma PaginationNumbers(input: Json, opts: Options)
    requires Validate(Pagination, input, opts).Ok?
    ensures var v := Validate(Pagination, input, opts).value;
      Field(v, "limit").Some? && Field(v, "limit").value.Num? && 1 <= Field(v, "limit").value.n <= 100 &&
      Field(v, "offset").Some? && Field(v, "offset").value.Num? && 0 <= Field(v, "offset").value.n &&
      (Field(input, "limit").None? ==> Field(v, "limit") == Some(Num(20))) &&
      (Field(input, "offset").None? ==> Field(v, "offset") == Some(Num(0)))
  {
    var s := Pagination;
    PaginationKeysDistinct();
    FieldValue(s, input, opts, 0);
    NumberOutcome(s[0], input.fields, 1, Some(100), 20);
    FieldValue(s, input, opts, 1);
    NumberOutcome(s[1], input.fields, 0, None, 0);
  }

  /** The `sort` and `order` halves of `PaginationValues`. */
  lemma PaginationChoices(input: Json, opts: Options)
    requires Validate(Pagination, input, opts).Ok?
    ensures var v := Validate(Pagination, input, opts).value;
      Field(v, "sort").Some? && Field(v, "sort").value.Str? && Field(v, "sort").value.s in ["created", "updated", "priority"] &&
      Field(v, "order").Some? && Field(v, "order").value.Str? && Field(v, "order").value.s in ["asc", "desc"] &&
      (Field(input, "sort").None? ==> Field(v, "sort") == Some(Str("created"))) &&
      (Field(input, "order").None? ==> Field(v, "order") == Some(Str("desc")))
  {
    var s := Pagination;
    PaginationKeysDistinct();
    FieldValue(s, input, opts, 2);
    ChoiceOutcome(s[2], input.fields, ["created", "updated", "priority"], "created");
    FieldValue(s, input, opts, 3);
    ChoiceOutcome(s[3], input.fields, ["asc", "desc"], "desc");
  }

  /** A search query passes only with a `q` of 1 to 500 characters, and its
      `limit` defaults to 20. */
  lemma SearchValues(input: Json, opts: Options)
    requires Validate(Search, input, opts).Ok?
    ensures var v := Validate(Search, input, opts).value;
      Field(v, "q").Some? && Field(v, "q").value.Str? && 1 <= |Field(v, "q").value.s| <= 500 &&
      Field(v, "limit").Some? && Field(v, "limit").value.Num? && 1 <= Field(v, "limit").value.n <= 100 &&
      (Field(input, "limit").None? ==> Field(v, "limit") == Some(Num(20)))
    ensures Field(input, "q").Some? && Field(input, "q").value.Str?
  {
    var s := Search;
    assert "q"[0] != "limit"[0];
    assert DistinctKeys(s);
    ValidateExact(s, input, opts);
    ValidatedValue(s, input, opts);
    assert FieldOk(s[0], input.fields) && FieldOk(s[1], input.fields);
  }

  /** Every id taken from a route parameter passes, unless it is empty. */
  lemma IdParamsExact(id: string, opts: Options)
    ensures Validate(IdParams, Obj([("id", Str(id))]), opts).Ok? <==> id != ""
    ensures id != "" ==> Validate(IdParams, Obj([("id", Str(id))]), opts).value == Obj([("id", Str(id))])
  {
    ValidateExact(IdParams, Obj([("id", Str(id))]), opts);
    var fs := [("id", Str(id))];
    assert Keys(fs) == ["id"];
    assert CheckFields(IdParams[1..], fs) == Checked([], []);
    assert Unknowns(fs[1..], SpecKeys(IdParams)) == [];
  }
}
