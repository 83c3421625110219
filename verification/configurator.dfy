/** Models src/configurator.ts: dotted-key reads and writes over one owned configuration tree. */
module Configurator {
  import opened Wrappers
  import opened Strings
  import opened Values
  import opened Errors
  import opened Util

  /** A loaded configuration: the tree (`context`) and its provenance (`state`, e.g. source and content).
      Deep copies on read and write are the identity on immutable values. */
  datatype Configurator = Configurator(context: Value, state: map<string, string>)

  /** The dot-separated segments of a key, as `key.split('.')`. */
  function Segments(key: string): (parts: seq<string>)
    ensures |parts| > 0
  {
    Split(key, ".")
  }

  /** `Configurator.get`: every segment is checked before any lookup, then the query runs;
      only an undefined result under a non-empty key is an error. */
  function Get(c: Configurator, key: Option<string>): (r: Result<Value, Error>)
    ensures key.None? || key == Some("") ==> r == Ok(c.context)
    ensures key.Some? && key.value != "" && FirstForbidden(Segments(key.value)).Some? ==>
      r == Err(Pollution(FirstForbidden(Segments(key.value)).value))
    ensures key.Some? && key.value != "" && FirstForbidden(Segments(key.value)).None? ==>
      (QueryNestedKey(c.context, key).None? ==> r == Err(KeyMissing(key.value))) &&
      (QueryNestedKey(c.context, key).Some? ==> r == Ok(QueryNestedKey(c.context, key).value))
  {
    match key
    case None => Ok(c.context)
    case Some(k) =>
      if k == "" then Ok(c.context)
      else
        match FirstForbidden(Segments(k))
        case Some(bad) => Err(Pollution(bad))
        case None =>
          match QueryNestedKey(c.context, key)
          case None => Err(KeyMissing(k))
          case Some(v) => Ok(v)
  }

  /** Defines (or, for an undefined value, clears) one own property of a mapping. */
  function Assign(fields: Context, key: string, value: Option<Value>): (r: Context)
    ensures value.Some? ==> key in r && r[key] == value.value
    ensures value.None? ==> key !in r
    ensures forall j :: j != key ==> (j in r <==> j in fields) && (j in fields ==> r[j] == fields[j])
  {
    match value
    case Some(v) => fields[key := v]
    case None => fields - {key}
  }

  /** The tree after a walk, together with the error that stopped it, if any. */
  datatype Walked = Walked(fields: Context, error: Option<Error>)

  /** The intermediate `set` descends into: an existing mapping, or a fresh empty one replacing a
      missing, falsy or non-mapping node. */
  function Intermediate(fields: Context, key: string): (r: Context)
    ensures key in fields && fields[key].Obj? ==> r == fields[key].fields
    ensures !(key in fields && fields[key].Obj?) ==> r == map[]
  {
    if key in fields && fields[key].Obj? then fields[key].fields else map[]
  }

  /** The write loop of `Configurator.set`: each segment is checked just before use, so on a
      forbidden segment the intermediates created for the earlier segments remain. */
  function SetIn(fields: Context, parts: seq<string>, value: Option<Value>): (w: Walked)
    requires |parts| > 0
    ensures w.error == (match FirstForbidden(parts) case None => None case Some(bad) => Some(Pollution(bad)))
    ensures IsForbidden(parts[0]) ==> w.fields == fields
    ensures forall j :: j != parts[0] ==> (j in w.fields <==> j in fields) && (j in fields ==> w.fields[j] == fields[j])
    decreases |parts|
  {
    var item := parts[0];
    match CheckPrototypePollution(item)
    case Fail(e) => Walked(fields, Some(e))
    case Pass =>
      if |parts| == 1 then Walked(Assign(fields, item, value), None)
      else
        var inner := SetIn(Intermediate(fields, item), parts[1..], value);
        Walked(fields[item := Obj(inner.fields)], inner.error)
  }

  /** The configurator and the promise outcome of a `set` call. */
  datatype SetOutcome = SetOutcome(config: Configurator, result: Result<Option<Value>, Error>)

  /** `Configurator.set` after argument normalisation. Without a key (or with an empty one) a defined
      value replaces the whole context and the context is returned; with a key the value is written
      along the path and the written value is returned. */
  function Set(c: Configurator, key: Option<string>, value: Option<Value>): (o: SetOutcome)
    ensures o.config.state == c.state
    ensures (key.None? || key == Some("")) ==>
      o.config.context == (if value.Some? then value.value else c.context) &&
      o.result == Ok(Some(o.config.context))
    ensures key.Some? && key.value != "" && IsForbidden(Segments(key.value)[0]) ==>
      o.config == c && o.result == Err(Pollution(Segments(key.value)[0]))
    ensures key.Some? && key.value != "" && c.context.Obj? ==>
      o.result == (match FirstForbidden(Segments(key.value))
                   case None => Ok(value)
                   case Some(bad) => Err(Pollution(bad)))
    ensures key.Some? && key.value != "" && c.context.Obj? ==>
      o.config.context.Obj? &&
      forall j :: j != Segments(key.value)[0] ==>
        (j in o.config.context.fields <==> j in c.context.fields) &&
        (j in c.context.fields ==> o.config.context.fields[j] == c.context.fields[j])
  {
    match key
    case None => WholeContext(c, value)
    case Some(k) =>
      if k == "" then WholeContext(c, value)
      else
        var parts := Segments(k);
        match CheckPrototypePollution(parts[0])
        case Fail(e) => SetOutcome(c, Err(e))
        case Pass =>
          match c.context
          case Obj(fields) =>
            var w := SetIn(fields, parts, value);
            var c' := c.(context := Obj(w.fields));
            (match w.error
             case Some(e) => SetOutcome(c', Err(e))
             case None => SetOutcome(c', Ok(value)))
          case _ => SetOutcome(c, Err(NotAnObject))
  }

  function WholeContext(c: Configurator, value: Option<Value>): SetOutcome {
    match value
    case Some(v) => SetOutcome(c.(context := v), Ok(Some(v)))
    case None => SetOutcome(c, Ok(Some(c.context)))
  }

  /** The first argument of `set` as the caller passed it (a callback is `None`), and the second. */
  datatype SetCall = SetCall(first: Option<Value>, second: Option<Value>)

  /** The argument normalisation of `Configurator.set`: a string is a key, a mapping or array is a
      whole new context, anything else (a callback, a primitive, nothing) sets nothing. */
  function NormaliseSetCall(call: SetCall): (r: (Option<string>, Option<Value>))
    ensures call.first.Some? && call.first.value.Str? ==> r == (Some(call.first.value.s), call.second)
    ensures call.first.Some? && (call.first.value.Obj? || call.first.value.Arr?) ==> r == (None, call.first)
    ensures r.0.None? && r.1.Some? ==> r.1 == call.first
  {
    match call.first
    case Some(Str(k)) => (Some(k), call.second)
    case Some(Obj(m)) => (None, call.first)
    case Some(Arr(a)) => (None, call.first)
    case _ => (None, None)
  }

  // ---------------------------------------------------------------------------------------------
  // Properties of get and set together.

  /** After a successful walk, the value written sits at the full path. */
  lemma {:induction false} SetInStoresValue(fields: Context, parts: seq<string>, v: Value)
    requires |parts| > 0
    requires FirstForbidden(parts).None?
    ensures Lookup(Obj(SetIn(fields, parts, Some(v)).fields), parts) == Some(v)
    decreases |parts|
  {
    var item := parts[0];
    assert !IsForbidden(item);
    if |parts| > 1 {
      assert FirstForbidden(parts[1..]).None?;
      SetInStoresValue(Intermediate(fields, item), parts[1..], v);
    }
  }

  /** Every proper prefix of a successfully written path now holds a mapping. */
  lemma {:induction false} SetInCreatesMappings(fields: Context, parts: seq<string>, value: Option<Value>, i: nat)
    requires 0 < i < |parts|
    requires FirstForbidden(parts).None?
    ensures Lookup(Obj(SetIn(fields, parts, value).fields), parts[..i]).Some?
    ensures Lookup(Obj(SetIn(fields, parts, value).fields), parts[..i]).value.Obj?
    decreases i
  {
    var item := parts[0];
    assert !IsForbidden(item);
    assert FirstForbidden(parts[1..]).None?;
    assert parts[..i][0] == item;
    assert parts[..i][1..] == parts[1..][..i - 1];
    if i > 1 {
      SetInCreatesMappings(Intermediate(fields, item), parts[1..], value, i - 1);
    }
  }

  /** A value reachable through mappings along a path that leaves the written path at segment `i`
      is still there afterwards: existing mappings keep their other keys. */
  lemma {:induction false} SetInKeepsSiblings(fields: Context, parts: seq<string>, value: Option<Value>,
                                              q: seq<string>, i: nat)
    requires i < |parts| && i < |q|
    requires q[..i] == parts[..i] && q[i] != parts[i]
    requires FirstForbidden(parts).None?
    requires Lookup(Obj(fields), q).Some?
    ensures Lookup(Obj(SetIn(fields, parts, value).fields), q) == Lookup(Obj(fields), q)
    decreases i
  {
    var item := parts[0];
    assert !IsForbidden(item);
    if i > 0 {
      assert q[0] == parts[0];
      assert FirstForbidden(parts[1..]).None?;
      assert q[1..][..i - 1] == q[..i][1..];
      assert parts[1..][..i - 1] == parts[..i][1..];
      SetInKeepsSiblings(Intermediate(fields, item), parts[1..], value, q[1..], i - 1);
    }
  }

  /** Round trip: `set(k, v)` followed by `get(k)` yields `v`, for a key without forbidden segments
      and without a leading dot (which `get` strips but `set` does not). */
  lemma SetThenGet(c: Configurator, k: string, v: Value)
    requires c.context.Obj? || k == ""
    requires k == "" || k[0] != '.'
    requires FirstForbidden(Segments(k)).None?
    ensures Get(Set(c, Some(k), Some(v)).config, Some(k)) == Ok(v)
  {
    if k != "" {
      var parts := Segments(k);
      SetInStoresValue(c.context.fields, parts, v);
      var written := Set(c, Some(k), Some(v)).config.context;
      WalkFollowsLookup(written, parts);
      assert StripLeadingDots(k) == k;
    }
  }

  /** A dot followed by a plain name splits into an empty segment and the name. */
  lemma LeadingDotSegments(name: string)
    requires '.' !in name
    ensures Segments("." + name) == ["", name]
  {
    var k := "." + name;
    SplitLeadingSeparator(k, '.');
    assert k[1..] == name;
    SplitWithoutSeparator(name, '.');
  }

  /** Writing two plain segments into an empty mapping nests the value one level down. */
  lemma SetInTwoSegments(x: string, y: string, v: Value)
    requires !IsForbidden(x) && !IsForbidden(y)
    ensures SetIn(map[], [x, y], Some(v)).fields == map[x := Obj(map[y := v])]
  {
    assert [x, y][1..] == [y];
    assert SetIn(map[], [y], Some(v)).fields == map[y := v];
  }

  /** A key with a leading dot is written under an empty first segment, so reading it back (which
      strips the dot) does not see the write. */
  lemma {:induction false} LeadingDotWriteIsNotReadBack(name: string, v: Value)
    requires name != "" && '.' !in name && !IsForbidden(name)
    ensures Get(Set(Configurator(Obj(map[]), map[]), Some("." + name), Some(v)).config, Some("." + name))
            == Err(KeyMissing("." + name))
  {
    var k := "." + name;
    LeadingDotSegments(name);
    SetInTwoSegments("", name, v);
    var written := Obj(map["" := Obj(map[name := v])]);
    assert Set(Configurator(Obj(map[]), map[]), Some(k), Some(v)).config.context == written;
    assert k[1..] == name;
    assert StripLeadingDots(k) == name;
    SplitWithoutSeparator(name, '.');
    assert Child(written, name) == None;
    assert Walk(Some(written), [name]) == Walk(None, [name][1..]);
    assert QueryNestedKey(written, Some(k)) == None;
  }
}
