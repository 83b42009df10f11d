/** Structured data as JavaScript holds it after `JSON.parse`: the payloads of events,
    response contents and metadata. Numbers are integers; objects keep their keys in
    insertion order, as JavaScript objects with string keys do. */
module Json {
  import opened Wrappers
  import opened Text

  datatype Json =
    | Null
    | Bool(b: bool)
    | Num(n: int)
    | Str(s: string)
    | Arr(items: seq<Json>)
    | Obj(fields: seq<(string, Json)>)

  /** JavaScript truthiness of a present value. */
  predicate Truthy(j: Json) {
    match j
    case Null => false
    case Bool(b) => b
    case Num(n) => n != 0
    case Str(s) => s != ""
    case Arr(_) => true
    case Obj(_) => true
  }

  /** The keys of an object, in insertion order. */
  function Keys(fs: seq<(string, Json)>): (ks: seq<string>)
    ensures |ks| == |fs|
  {
    if |fs| == 0 then [] else [fs[0].0] + Keys(fs[1..])
  }

  /** Property read `o[k]`: the value stored under `k`, if any. */
  function Get(fs: seq<(string, Json)>, k: string): (r: Option<Json>)
    ensures r.None? <==> k !in Keys(fs)
  {
    if |fs| == 0 then None
    else if fs[0].0 == k then Some(fs[0].1)
    else Get(fs[1..], k)
  }

  /** A property read skips a first property with another key. */
  lemma GetSkip(k0: string, v0: Json, rest: seq<(string, Json)>, k: string)
    ensures Get([(k0, v0)] + rest, k) == if k0 == k then Some(v0) else Get(rest, k)
  {
    assert ([(k0, v0)] + rest)[1..] == rest;
  }

  /** An object literal's property list built front to back: `k` first, then `rest`. */
  function Put(k: string, v: Json, rest: seq<(string, Json)>): (r: seq<(string, Json)>)
    ensures forall q :: Get(r, q) == if q == k then Some(v) else Get(rest, q)
  {
    forall q ensures Get([(k, v)] + rest, q) == if q == k then Some(v) else Get(rest, q) {
      GetSkip(k, v, rest, q);
    }
    [(k, v)] + rest
  }

  /** As `Put`, for a value that may be `undefined`: such a property is left out,
      as `JSON.stringify` leaves it out. */
  function PutOpt(k: string, v: Option<Json>, rest: seq<(string, Json)>): (r: seq<(string, Json)>)
    ensures forall q :: Get(r, q) == if q == k && v.Some? then v else Get(rest, q)
  {
    if v.Some? then Put(k, v.value, rest) else rest
  }

  /** Reading from a concatenation: the first part wins when it has the key. */
  lemma {:induction false} GetAppend(a: seq<(string, Json)>, b: seq<(string, Json)>, k: string)
    ensures Get(a + b, k) == if k in Keys(a) then Get(a, k) else Get(b, k)
    decreases |a|
  {
    if |a| > 0 {
      assert (a + b)[1..] == a[1..] + b;
      assert Keys(a) == [a[0].0] + Keys(a[1..]);
      GetAppend(a[1..], b, k);
    } else {
      assert a + b == b;
    }
  }

  /** No key occurs twice. */
  predicate UniqueKeys(fs: seq<(string, Json)>)
    decreases |fs|
  {
    |fs| == 0 || (fs[0].0 !in Keys(fs[1..]) && UniqueKeys(fs[1..]))
  }

  /** Property write `o[k] = v`: an existing key keeps its position and takes the
      new value; a new key is added last. */
  function Set(fs: seq<(string, Json)>, k: string, v: Json): (r: seq<(string, Json)>)
    ensures Get(r, k) == Some(v)
    ensures forall k' | k' != k :: Get(r, k') == Get(fs, k')
  {
    if |fs| == 0 then [(k, v)]
    else if fs[0].0 == k then [(k, v)] + fs[1..]
    else
      var r := [fs[0]] + Set(fs[1..], k, v);
      assert r[1..] == Set(fs[1..], k, v);
      r
  }

  /** Writing a property never reorders keys: an existing key stays where it was and
      a new one is appended. */
  lemma {:induction false} SetKeys(fs: seq<(string, Json)>, k: string, v: Json)
    ensures k in Keys(fs) ==> Keys(Set(fs, k, v)) == Keys(fs)
    ensures k !in Keys(fs) ==> Keys(Set(fs, k, v)) == Keys(fs) + [k]
  {
    if |fs| > 0 && fs[0].0 != k {
      SetKeys(fs[1..], k, v);
      var r := Set(fs, k, v);
      assert r[1..] == Set(fs[1..], k, v);
    }
  }

  /** The own properties of a value spread with `{...j}`; spreading `null`, a
      boolean or a number contributes nothing. */
  function FieldsOf(j: Json): seq<(string, Json)> {
    if j.Obj? then j.fields else []
  }

  /** Shorthand for an object literal with string values. */
  function Field(j: Json, k: string): Option<Json> {
    Get(FieldsOf(j), k)
  }

  /** Property read `j[k]` in JavaScript for the keys this system reads (`id`,
      `status`, `request`, `data`, `request_id`), none of which a primitive or an
      array carries: reading from `null` throws, an object gives its own
      property, anything else `undefined`. */
  function JsProp(j: Json, k: string): (r: Result<Option<Json>, string>)
    ensures r.Err? <==> j.Null?
    ensures j.Obj? ==> r == Ok(Get(j.fields, k))
  {
    match j
    case Null => Err("TypeError: Cannot read properties of null")
    case Obj(fs) => Ok(Get(fs, k))
    case _ => Ok(None)
  }

  /** `String(v)`, as a template literal `${v}` converts a value; `undefined`
      gives "undefined". */
  function JsString(v: Option<Json>): (s: string)
    ensures v.Some? && v.value.Str? ==> s == v.value.s
  {
    match v
    case None => "undefined"
    case Some(j) => Render(j)
  }

  function Render(j: Json): string
    decreases j
  {
    match j
    case Null => "null"
    case Bool(b) => if b then "true" else "false"
    case Num(n) => if n < 0 then "-" + Digits(-n) else Digits(n)
    case Str(s) => s
    case Arr(xs) =>
      // array elements are joined with commas; `null` elements print as nothing
      Join(seq(|xs|, i requires 0 <= i < |xs| => if xs[i].Null? then "" else Render(xs[i])))
    case Obj(_) => "[object Object]"
  }

  function Join(ss: seq<string>): string
    decreases |ss|
  {
    if |ss| == 0 then "" else if |ss| == 1 then ss[0] else ss[0] + "," + Join(ss[1..])
  }

  /** A value JavaScript compares by value. Arrays and objects compare by
      identity, and every `JSON.parse` makes new ones. */
  predicate Primitive(j: Json) {
    !j.Arr? && !j.Obj?
  }

  /** `a === b` between two values read from separately parsed documents: absent
      values and equal primitives are identical; two arrays or objects never are,
      since they are distinct objects. */
  predicate StrictEquals(a: Option<Json>, b: Option<Json>) {
    (a.None? && b.None?) || (a.Some? && b.Some? && a.value == b.value && Primitive(a.value))
  }
}
