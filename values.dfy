/** What the handlers receive and return: request-body values with JavaScript
    truthiness, the casts a schema applies when such a value is assigned to a
    typed path, document identifiers, and the replies a handler can send. */
module Values {
  import opened Text

  datatype Option<T> = None | Some(value: T)

  /** A field of a parsed JSON request body, as a destructuring `const { f } =
      req.body` sees it: missing (`undefined`), `null`, a boolean or a string. */
  datatype JsVal = Undefined | Null | Bool(b: bool) | Str(s: string)

  /** JavaScript truthiness, as tested by `!f` and by `f || fallback`. */
  predicate Truthy(v: JsVal)
  {
    match v
    case Bool(b) => b
    case Str(s) => s != ""
    case _ => false
  }

  /** `v || fallback` */
  function Or(v: JsVal, fallback: JsVal): (r: JsVal)
  {
    if Truthy(v) then v else fallback
  }

  /** `v || current` assigned to a typed path of a fetched document: a truthy
      value is cast to the path's type (which may fail), a falsy one leaves the
      path holding what it held. */
  function Coalesce<T>(v: JsVal, current: T, cast: JsVal -> Option<T>): (r: Option<T>)
    ensures !Truthy(v) ==> r == Some(current)
  {
    if Truthy(v) then cast(v) else Some(current)
  }

  // ---------------------------------------------------------------- ObjectId

  function Pow16(n: nat): (p: nat)
    ensures p > 0
  {
    if n == 0 then 1 else 16 * Pow16(n - 1)
  }

  /** An ObjectId is twelve bytes; its text form is 24 hexadecimal digits. */
  const ObjectIdDigits := 24

  /** An ObjectId, as the number its twelve bytes spell. */
  type Id = k: nat | k < Pow16(ObjectIdDigits)

  function HexDigitValue(c: char): (d: Option<nat>)
    ensures d.Some? ==> d.value < 16
  {
    if '0' <= c <= '9' then Some(c as int - '0' as int)
    else if 'a' <= c <= 'f' then Some(c as int - 'a' as int + 10)
    else if 'A' <= c <= 'F' then Some(c as int - 'A' as int + 10)
    else None
  }

  predicate AllHex(s: string)
  {
    forall i :: 0 <= i < |s| ==> HexDigitValue(s[i]).Some?
  }

  function HexValue(s: string): (n: nat)
    requires AllHex(s)
    ensures n < Pow16(|s|)
  {
    if s == [] then 0
    else HexValue(s[..|s| - 1]) * 16 + HexDigitValue(s[|s| - 1]).value
  }

  function HexChar(d: nat): char
    requires d < 16
  {
    if d < 10 then ('0' as int + d) as char else ('a' as int + d - 10) as char
  }

  /** The lower-case hex text of `n` in `width` digits. */
  function HexText(n: nat, width: nat): (s: string)
    ensures |s| == width
  {
    if width == 0 then [] else HexText(n / 16, width - 1) + [HexChar(n % 16)]
  }

  /** Casting a string to an ObjectId, as `findById` and an ObjectId path do:
      exactly 24 hexadecimal digits are accepted; anything else is a cast
      error. */
  function ParseObjectId(s: string): (r: Option<Id>)
    ensures r.Some? <==> |s| == ObjectIdDigits && AllHex(s)
  {
    if |s| == ObjectIdDigits && AllHex(s) then Some(HexValue(s)) else None
  }

  /** `id.toString()` */
  function ObjectIdText(k: Id): (s: string)
    ensures |s| == ObjectIdDigits
  {
    HexText(k, ObjectIdDigits)
  }

  lemma {:induction false} HexRoundTrip(n: nat, width: nat)
    requires n < Pow16(width)
    ensures AllHex(HexText(n, width)) && HexValue(HexText(n, width)) == n
  {
    if width > 0 {
      var q, d := n / 16, n % 16;
      assert n == q * 16 + d;
      assert q < Pow16(width - 1);
      HexRoundTrip(q, width - 1);
      var s := HexText(n, width);
      assert s[..|s| - 1] == HexText(q, width - 1);
      assert HexDigitValue(HexChar(d)) == Some(d);
    }
  }

  /** The text of an id casts back to that id, so a document created under a
      fresh id can be fetched by the id the reply carries. */
  lemma ObjectIdRoundTrip(k: Id)
    ensures ParseObjectId(ObjectIdText(k)) == Some(k)
  {
    HexRoundTrip(k, ObjectIdDigits);
  }

  /** Two ids are equal exactly when their texts are, so comparing
      `toString()` texts compares the ids. */
  lemma ObjectIdTextInjective(a: Id, b: Id)
    ensures ObjectIdText(a) == ObjectIdText(b) <==> a == b
  {
    ObjectIdRoundTrip(a);
    ObjectIdRoundTrip(b);
  }

  // ------------------------------------------------------------------- casts

  /** Timestamps: totally ordered and otherwise opaque. */
  type Date = int

  /** The String cast of a present value: strings as they are, booleans as
      their text; `null` and `undefined` are not strings. */
  function StringOf(v: JsVal): (r: Option<string>)
    ensures r.Some? <==> v.Bool? || v.Str?
  {
    match v
    case Str(s) => Some(s)
    case Bool(b) => Some(if b then "true" else "false")
    case _ => None
  }

  /** A String path with the `trim` setter. `None` is `null` or `undefined`,
      which a required path refuses and an optional one stores as `null`. */
  function TrimmedStringOf(v: JsVal): (r: Option<string>)
    ensures r.Some? ==> IsTrimmed(r.value)
    ensures r.None? <==> v.Null? || v.Undefined?
  {
    match StringOf(v)
    case Some(s) => Some(Trim(s))
    case None => None
  }

  /** A string that is already trimmed is stored as itself. */
  lemma TrimmedStringOfTrimmed(s: string)
    requires IsTrimmed(s)
    ensures TrimmedStringOf(Str(s)) == Some(s)
  {
    TrimOfTrimmed(s);
  }

  /** A trimmed String path with a default, on a new document: the default
      when the value is missing, otherwise the trimmed string (or `null`). */
  function NewTrimmedStringOf(v: JsVal, default: string): (r: Option<string>)
    ensures v == Undefined ==> r == Some(default)
    ensures v != Undefined ==> r == TrimmedStringOf(v)
  {
    if v == Undefined then Some(default) else TrimmedStringOf(v)
  }

  /** The Boolean cast: `true`, "true", "1", "yes" are true; `false`,
      "false", "0", "no" are false; anything else is a cast error. */
  function BooleanOf(v: JsVal): (r: Option<bool>)
    ensures r.Some? ==> v.Bool? || v.Str?
    ensures v.Bool? ==> r == Some(v.b)
    ensures !Truthy(v) ==> r != Some(true)
    ensures Truthy(v) && r == Some(false) <==> v.Str? && (v.s == "false" || v.s == "0" || v.s == "no")
  {
    match v
    case Bool(b) => Some(b)
    case Str(s) =>
      if s == "true" || s == "1" || s == "yes" then Some(true)
      else if s == "false" || s == "0" || s == "no" then Some(false)
      else None
    case _ => None
  }

  /** The ObjectId cast of a body value: a string is parsed, anything else is
      refused. */
  function ObjectIdOf(v: JsVal): (r: Option<Id>)
    ensures v.Str? ==> r == ParseObjectId(v.s)
    ensures r.Some? ==> v.Str?
  {
    match v
    case Str(s) => ParseObjectId(s)
    case _ => None
  }

  /** The Date cast on a path that needs a date: a non-empty string is parsed
      by the store's date parser; booleans are refused, and `null`, `""` and
      `undefined` give no date. */
  function DateOf(v: JsVal, parseDate: string -> Option<Date>): (r: Option<Date>)
    ensures v.Str? && v.s != "" ==> r == parseDate(v.s)
    ensures r.Some? ==> v.Str? && v.s != ""
  {
    match v
    case Str(s) => if s == "" then None else parseDate(s)
    case _ => None
  }

  /** The Date cast on a path that may hold `null`: `null` and `""` store
      `null` (`Some(None)`), a string is parsed, and a boolean or an
      unparseable string is a cast error (`None`). */
  function NullableDateOf(v: JsVal, parseDate: string -> Option<Date>): (r: Option<Option<Date>>)
    ensures v == Null || v == Str("") ==> r == Some(None)
    ensures v.Str? && v.s != "" ==> (r.Some? <==> parseDate(v.s).Some?)
    ensures v.Str? && v.s != "" && r.Some? ==> r.value == parseDate(v.s)
    ensures v.Bool? ==> r.None?
  {
    if v == Null || v == Str("") then Some(None)
    else match DateOf(v, parseDate)
      case Some(d) => Some(Some(d))
      case None => None
  }

  /** The Boolean cast on a path that may hold `null`: `null` stores `null`
      (`Some(None)`); otherwise the Boolean cast, whose failure is a cast
      error (`None`). */
  function NullableBooleanOf(v: JsVal): (r: Option<Option<bool>>)
    ensures v == Null ==> r == Some(None)
    ensures v != Null ==> (r.Some? <==> BooleanOf(v).Some?)
    ensures v != Null && r.Some? ==> r.value == BooleanOf(v)
  {
    if v == Null then Some(None)
    else match BooleanOf(v)
      case Some(b) => Some(Some(b))
      case None => None
  }

  /** A required trimmed String path holds a value once the setter ran: it is
      present and not empty. */
  predicate NonBlank(o: Option<string>)
  {
    o.Some? && o.value != ""
  }

  // ----------------------------------------------------------------- replies

  /** What a handler answers: 200 with a value, 201 with the created document,
      or one of the error statuses. */
  datatype Reply<T> = Ok(value: T) | Created(value: T) | BadRequest | NotFound | Forbidden | StoreError
  {
    function Status(): int
    {
      match this
      case Ok(_) => 200
      case Created(_) => 201
      case BadRequest => 400
      case NotFound => 404
      case Forbidden => 403
      case StoreError => 500
    }
  }

  /** `Model.findById(id)` followed by the handlers' `if (!doc) 404`: a
      malformed id throws a cast error (500), an unknown one finds nothing
      (404). */
  function FindById<T>(m: map<Id, T>, id: string): (r: Reply<T>)
    ensures r.Ok? || r.NotFound? || r.StoreError?
    ensures r.StoreError? <==> ParseObjectId(id).None?
    ensures r.Ok? <==> ParseObjectId(id).Some? && ParseObjectId(id).value in m
    ensures r.Ok? ==> r.value == m[ParseObjectId(id).value]
  {
    match ParseObjectId(id)
    case None => StoreError
    case Some(k) => if k in m then Ok(m[k]) else NotFound
  }

  /** The key a well-formed route id names. */
  function KeyOf(id: string): Id
    requires ParseObjectId(id).Some?
  {
    ParseObjectId(id).value
  }
}
