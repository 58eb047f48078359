/** The dynamic values that reach the SDK from JSON bodies and cache backends, and the
    operations of the host language the modelled code applies to them. */
module PyValues {

  datatype Option<+T> = None | Some(value: T)

  datatype Result<+T, +E> = Ok(value: T) | Raised(error: E)

  datatype PyValue =
    | PyNone
    | PyBool(b: bool)
    | PyInt(n: int)
    | PyFloat(x: real)
    | PyStr(s: string)
    | PyList(items: seq<PyValue>)
    | PyDict(fields: map<string, PyValue>)

  /** Truth value testing, as `or` and `if` perform it. */
  predicate Truthy(v: PyValue) {
    match v
    case PyNone => false
    case PyBool(b) => b
    case PyInt(n) => n != 0
    case PyFloat(x) => x != 0.0
    case PyStr(s) => s != ""
    case PyList(items) => items != []
    case PyDict(fields) => fields != map[]
  }

  /** `d.get(key)`: a missing key reads as None. */
  function Get(fields: map<string, PyValue>, key: string): PyValue {
    if key in fields then fields[key] else PyNone
  }

  /** JSON text, as far as `json.loads` tells it apart: the dump of a dictionary, or any other text. */
  datatype JsonText = Dumped(fields: map<string, PyValue>) | OtherText(text: string)

  /** What the SDK uses but does not implement: `str`, JSON, the order in which a dictionary
      yields its keys, `float` on a string, `str.upper`, and the endpoint test built on `urlsplit`. */
  datatype Platform = Platform(
    str: PyValue -> string,
    dumps: map<string, PyValue> -> JsonText,
    loads: JsonText -> Option<PyValue>,
    loadsBytes: seq<int> -> Option<PyValue>,
    keyOrder: map<string, PyValue> -> seq<string>,
    floatOfString: string -> Option<real>,
    upper: string -> string,
    validEndpoint: string -> bool)
  {
    /** The assumptions: `str` is the identity on strings and never empty on a true value, and
        loading a dumped dictionary gives the dictionary back. */
    ghost predicate Valid() {
      && (forall s :: str(PyStr(s)) == s)
      && (forall v :: Truthy(v) ==> str(v) != "")
      && (forall d :: loads(dumps(d)) == Some(PyDict(d)))
    }
  }

  /** The assumptions can be met together. */
  lemma PlatformsExist()
    ensures exists p: Platform :: p.Valid()
  {
    var p := Platform(
      (v: PyValue) => if v.PyStr? then v.s else "?", d => Dumped(d),
      (text: JsonText) => if text.Dumped? then Some(PyDict(text.fields)) else None,
      bytes => None, fields => [], s => None, s => s, path => true);
    assert p.Valid();
  }
}
