/**
 The slice of Python's runtime that the completion checker leans on: the JSON-shaped values a
 TMDB record is made of, their truth value, `dict.get`, `str.strip`, the exceptions that can be
 raised while reading them (as values instead of control flow) and naive/aware datetimes.
 */
module PyValues {

  datatype Option<+T> = None | Some(value: T)

  /** A computation that either produced a value or raised a Python exception. */
  datatype Result<+T, +E> = Ok(value: T) | Err(error: E)

  /** A decoded JSON value as Python holds it (floats are not modelled). */
  datatype Json =
    | JNull
    | JBool(b: bool)
    | JInt(i: int)
    | JStr(s: string)
    | JList(items: seq<Json>)
    | JObject(fields: map<string, Json>)

  /** A decoded JSON object, i.e. a Python `dict` with string keys. */
  type Record = map<string, Json>

  /** Python's truth value: `None`, `False`, `0`, `""`, `[]` and `{}` are false. */
  predicate Truthy(v: Json)
    ensures !Truthy(v) <==> v in {JNull, JBool(false), JInt(0), JStr(""), JList([]), JObject(map[])}
  {
    match v
    case JNull => false
    case JBool(b) => b
    case JInt(i) => i != 0
    case JStr(s) => s != []
    case JList(items) => items != []
    case JObject(fields) => |fields| != 0
  }

  /** `type(v).__name__` */
  function TypeName(v: Json): (n: string)
    ensures n != []
  {
    match v
    case JNull => "NoneType"
    case JBool(_) => "bool"
    case JInt(_) => "int"
    case JStr(_) => "str"
    case JList(_) => "list"
    case JObject(_) => "dict"
  }

  /** `str(v)` for a value whose truth value is false. */
  function FalsyText(v: Json): (t: string)
    requires !Truthy(v)
    ensures t == [] <==> v.JStr?
  {
    match v
    case JNull => "None"
    case JBool(_) => "False"
    case JInt(_) => "0"
    case JStr(_) => ""
    case JList(_) => "[]"
    case JObject(_) => "{}"
  }

  /** `d.get(key, default)` */
  function GetOr(d: Record, key: string, default: Json): (v: Json)
    ensures key in d ==> v == d[key]
    ensures key !in d ==> v == default
  {
    if key in d then d[key] else default
  }

  /** `d.get(key)`: a missing key and an explicit `null` both read as `None`. */
  function Get(d: Record, key: string): (v: Json)
    ensures v == JNull <==> key !in d || d[key] == JNull
    ensures v != JNull ==> key in d && v == d[key]
  {
    GetOr(d, key, JNull)
  }

  /** The exceptions the checker's reads can raise; `Message` gives `str(e)`. */
  datatype PyError =
    | NoAttribute(typeName: string, attr: string) // AttributeError, e.g. `None.strip()`
    | NotAContainer(typeName: string)             // TypeError from `16 in v`
    | StrContainsNonStr                           // TypeError from `16 in "..."`
    | NotIterable(typeName: string)               // TypeError from `for x in v`
    | IsoFormatArgNotStr                          // TypeError from `datetime.fromisoformat(v)`
    | NaiveAwareCompare                           // TypeError from `aware < naive`
    | NaiveAwareSubtract                          // TypeError from `naive - aware`

  function Message(e: PyError): (t: string)
    ensures t != []
  {
    match e
    case NoAttribute(typeName, attr) => "'" + typeName + "' object has no attribute '" + attr + "'"
    case NotAContainer(typeName) => "argument of type '" + typeName + "' is not iterable"
    case StrContainsNonStr => "'in <string>' requires string as left operand, not int"
    case NotIterable(typeName) => "'" + typeName + "' object is not iterable"
    case IsoFormatArgNotStr => "fromisoformat: argument must be str"
    case NaiveAwareCompare => "can't compare offset-naive and offset-aware datetimes"
    case NaiveAwareSubtract => "can't subtract offset-naive and offset-aware datetimes"
  }

  /** The characters for which Python's `str.isspace()` holds; `str.strip()` removes exactly these. */
  predicate IsSpace(c: char) {
    || '\t' <= c <= '\r'
    || '\U{1C}' <= c <= '\U{20}'
    || c == '\U{85}' || c == '\U{A0}' || c == '\U{1680}'
    || '\U{2000}' <= c <= '\U{200A}'
    || c == '\U{2028}' || c == '\U{2029}' || c == '\U{202F}' || c == '\U{205F}' || c == '\U{3000}'
  }

  predicate AllSpace(s: string) {
    forall i :: 0 <= i < |s| ==> IsSpace(s[i])
  }

  /** The first index at or after `i` that does not hold whitespace (`|s|` if there is none). */
  function SkipSpace(s: string, i: nat): (j: nat)
    requires i <= |s|
    ensures i <= j <= |s|
    ensures forall k :: i <= k < j ==> IsSpace(s[k])
    ensures j == |s| || !IsSpace(s[j])
    decreases |s| - i
  {
    if i < |s| && IsSpace(s[i]) then SkipSpace(s, i + 1) else i
  }

  /** The last index at or before `j` that follows a non-whitespace character (`0` if there is none). */
  function SkipSpaceBack(s: string, j: nat): (i: nat)
    requires j <= |s|
    ensures i <= j
    ensures forall k :: i <= k < j ==> IsSpace(s[k])
    ensures i == 0 || !IsSpace(s[i - 1])
  {
    if j > 0 && IsSpace(s[j - 1]) then SkipSpaceBack(s, j - 1) else j
  }

  /** `s.strip()`: what lies between the leading and the trailing whitespace. */
  function Strip(s: string): (r: string)
    ensures |r| <= |s|
    ensures r == [] || (!IsSpace(r[0]) && !IsSpace(r[|r| - 1]))
  {
    var first := SkipSpace(s, 0);
    var last := SkipSpaceBack(s, |s|);
    if last <= first then [] else s[first..last]
  }

  /**
   `strip` is characterised by what it keeps: surrounding `core` by any whitespace gives `core`
   back, as long as `core` itself neither starts nor ends with whitespace.
   */
  lemma StripPadded(pre: string, core: string, post: string)
    requires AllSpace(pre) && AllSpace(post)
    requires core == [] || (!IsSpace(core[0]) && !IsSpace(core[|core| - 1]))
    ensures Strip(pre + core + post) == core
  {
    var s := pre + core + post;
    var m := |pre| + |core|;
    forall k | 0 <= k < |pre| ensures IsSpace(s[k]) {
      assert s[k] == pre[k];
    }
    forall k | m <= k < |s| ensures IsSpace(s[k]) {
      assert s[k] == post[k - m];
    }
    if core != [] {
      assert s[|pre|] == core[0];
      assert s[m - 1] == core[|core| - 1];
      assert s[|pre|..m] == core;
    }
  }

  /** A point in time as `datetime.fromisoformat` returns it, counted in microseconds. */
  datatype DateTime = DateTime(micros: int, aware: bool)

  const MicrosPerDay: int := 86_400_000_000

  /** `(later - earlier).days`: whole days elapsed, rounded towards minus infinity. */
  function DaysBetween(earlier: int, later: int): (days: int)
    ensures days * MicrosPerDay <= later - earlier < days * MicrosPerDay + MicrosPerDay
  {
    (later - earlier) / MicrosPerDay
  }
}
