/** JSON values and the library calls whose behaviour is a parameter of the model. */
module Values {

  datatype Option<+T> = None | Some(value: T)
  datatype Result<+T, +E> = Ok(value: T) | Err(error: E)

  /** `IntNum` and `RealNum` are the two JSON numbers; they are equal as numbers but have
      different JSON text. */
  datatype Json =
    | Null
    | Bool(flag: bool)
    | IntNum(int_: int)
    | RealNum(real_: real)
    | Str(text: string)
    | List(items: seq<Json>)
    | Object(fields: map<string, Json>)

  type Obj = map<string, Json>

  /** A JSON Schema: what the code reads out of it, and an identity for the validator. */
  datatype Schema = Schema(id: nat, acceptable: bool, required: set<string>,
                           properties: Option<set<string>>, closed: bool)

  /** What a text says as a time with an offset: none, one that lies outside the range of dates in
      UTC, or an instant. */
  datatype ParsedTime = NotATime | OffTheCalendar | Time(instant: int)

  /** Library behaviour: JSON text, times, and JSON Schema validation with the size limit. `shift`
      adds seconds to an instant, unless the sum lies outside the range of dates. */
  datatype Library = Library(
    dumps: Json -> string,
    isoFormat: int -> string,
    parseTime: string -> ParsedTime,
    shift: (int, int) -> Option<int>,
    conforms: (Schema, Obj) -> bool)

  predicate IsNumber(v: Json) {
    v.IntNum? || v.RealNum?
  }

  function NumberOf(v: Json): real
    requires IsNumber(v)
  {
    if v.IntNum? then v.int_ as real else v.real_
  }

  /** Text order by code point, as on Python strings. */
  predicate TextLess(a: string, b: string) {
    if |b| == 0 then false
    else if |a| == 0 then true
    else if a[0] != b[0] then a[0] < b[0]
    else TextLess(a[1..], b[1..])
  }

  predicate IsDigits(s: string) {
    |s| > 0 && forall i :: 0 <= i < |s| ==> '0' <= s[i] <= '9'
  }

  function ParseNat(s: string): (n: nat)
    requires IsDigits(s)
  {
    (if |s| == 1 then 0 else 10 * ParseNat(s[..|s| - 1])) + (s[|s| - 1] as int - '0' as int)
  }
}
