/** The configuration tree: JSON-like values with string-keyed mappings. */
module Values {
  import opened Wrappers

  /** A parsed configuration value. `Obj` is a plain mapping; JavaScript `undefined` is `Option.None`. */
  datatype Value =
    | Null
    | Bool(b: bool)
    | Int(i: int)
    | Str(s: string)
    | Arr(items: seq<Value>)
    | Obj(fields: map<string, Value>)

  /** A configuration context: the top level of a parsed configuration. */
  type Context = map<string, Value>

  /** Walks `path` through mappings only: the reference notion of "the value stored at a path". */
  function Lookup(v: Value, path: seq<string>): Option<Value>
    decreases |path|
  {
    if |path| == 0 then Some(v)
    else if v.Obj? && path[0] in v.fields then Lookup(v.fields[path[0]], path[1..])
    else None
  }

  /** Looking up a path in two steps is looking it up in one. */
  lemma {:induction false} LookupAppend(v: Value, p: seq<string>, q: seq<string>)
    ensures Lookup(v, p + q) == (match Lookup(v, p) case None => None case Some(w) => Lookup(w, q))
    decreases |p|
  {
    if |p| > 0 {
      assert (p + q)[0] == p[0];
      assert (p + q)[1..] == p[1..] + q;
      if v.Obj? && p[0] in v.fields {
        LookupAppend(v.fields[p[0]], p[1..], q);
      }
    } else {
      assert p + q == q;
    }
  }
}
