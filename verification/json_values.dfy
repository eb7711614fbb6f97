/** JSON values and the conversions the decoder applies to them. */
module JsonValues {
  import opened Wrappers

  /** JSON text only meets these values here: no event field is written as a floating-point number. */
  datatype Json = Null | Bool(b: bool) | Int(n: int) | Text(s: string) | List(items: seq<Json>) | Object(fields: Fields)

  type Fields = map<string, Json>

  /**
   What the host language decides: the text of a value that is no text, the whole number in a text, and
   the decimal number in a text. `write` gives back a text for every number that is `exact`.
   */
  datatype Host = Host(show: Json -> string, whole: string -> Option<int>, decimal: string -> Option<real>,
                       write: real -> string, exact: real -> bool)

  ghost predicate Sensible(h: Host) {
    forall d: real {:trigger h.write(d)} | h.exact(d) :: h.decimal(h.write(d)) == Some(d)
  }

  function Str(h: Host, j: Json): string {
    if j.Text? then j.s else h.show(j)
  }

  function Whole(h: Host, j: Json): Option<int> {
    match j
    case Int(n) => Some(n)
    case Bool(b) => Some(if b then 1 else 0)
    case Text(s) => h.whole(s)
    case _ => None
  }

  function Truth(j: Json): bool {
    match j
    case Null => false
    case Bool(b) => b
    case Int(n) => n != 0
    case Text(s) => s != ""
    case List(items) => items != []
    case Object(fields) => fields != map[]
  }

  function Number(h: Host, j: Json): Option<real> {
    h.decimal(Str(h, j))
  }

  // Fields of an object: required ones, and ones that may be missing or null.

  function Get(f: Fields, key: string): Json {
    if key in f then f[key] else Null
  }

  function Required(f: Fields, key: string): Option<Json> {
    if key in f then Some(f[key]) else None
  }

  function StrAt(h: Host, f: Fields, key: string): Option<string> {
    var j :- Required(f, key);
    Some(Str(h, j))
  }

  function WholeAt(h: Host, f: Fields, key: string): Option<int> {
    var j :- Required(f, key);
    Whole(h, j)
  }

  function NumberAt(h: Host, f: Fields, key: string): Option<real> {
    var j :- Required(f, key);
    Number(h, j)
  }

  function TruthAt(f: Fields, key: string): Option<bool> {
    var j :- Required(f, key);
    Some(Truth(j))
  }

  /** A text, or none when the field is anything else. */
  function TextAt(f: Fields, key: string): Option<string> {
    if Get(f, key).Text? then Some(Get(f, key).s) else None
  }

  function MaybeWholeAt(h: Host, f: Fields, key: string): Option<Option<int>> {
    if Get(f, key).Null? then Some(None)
    else
      var n :- Whole(h, Get(f, key));
      Some(Some(n))
  }

  function MaybeNumberAt(h: Host, f: Fields, key: string): Option<Option<real>> {
    if Get(f, key).Null? then Some(None)
    else
      var d :- Number(h, Get(f, key));
      Some(Some(d))
  }

  function WholeOr(h: Host, f: Fields, key: string, default: int): Option<int> {
    if key in f then Whole(h, f[key]) else Some(default)
  }

  // Writing optional values.

  function MaybeText(o: Option<string>): Json { if o.Some? then Text(o.value) else Null }

  function MaybeInt(o: Option<int>): Json { if o.Some? then Int(o.value) else Null }

  function Decimal(h: Host, d: real): Json { Text(h.write(d)) }

  function MaybeDecimal(h: Host, o: Option<real>): Json { if o.Some? then Decimal(h, o.value) else Null }
}
