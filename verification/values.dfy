/**
 * The Python values that the backend's `to_dict` methods and the mock ERP
 * store put in dictionaries. A dictionary is a map from key to value;
 * `float` is kept as an uninterpreted real (nothing computes on it).
 */
module Values {
  import opened Wrappers

  datatype Value =
    | VNone
    | VBool(b: bool)
    | VInt(i: int)
    | VFloat(f: real)
    | VStr(s: string)
    | VList(items: seq<Value>)
    | VDict(entries: map<string, Value>)

  type Dict = map<string, Value>

  /** An `Optional[str]` field as stored in a dictionary. */
  function OptStr(o: Option<string>): (v: Value)
    ensures o.None? <==> v == VNone
  {
    match o
    case None => VNone
    case Some(s) => VStr(s)
  }

  /** Reads back an `Optional[str]` entry; `None` when the value has another shape. */
  function AsOptStr(v: Value): (r: Option<Option<string>>)
  {
    match v
    case VNone => Some(None)
    case VStr(s) => Some(Some(s))
    case _ => None
  }

  lemma OptStrRoundTrip(o: Option<string>)
    ensures AsOptStr(OptStr(o)) == Some(o)
  {
  }
}
