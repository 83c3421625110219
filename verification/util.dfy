/** Models src/util.ts: the prototype-pollution guard, dotted-key queries and module-name splitting. */
module Util {
  import opened Wrappers
  import opened Strings
  import opened Values
  import opened Errors

  /** The three segments that could reach an object's prototype chain. */
  predicate IsForbidden(key: string) {
    key == "__proto__" || key == "prototype" || key == "constructor"
  }

  /** `checkPrototypePollution`: rejects a forbidden segment, naming it. */
  function CheckPrototypePollution(key: string): (r: Outcome<Error>)
    ensures r.Fail? <==> IsForbidden(key)
    ensures r.Fail? ==> r.error == Pollution(key)
  {
    if key in ["__proto__", "prototype", "constructor"] then Fail(Pollution(key)) else Pass
  }

  /** Only the exact words are rejected: surrounding them with anything makes an acceptable key. */
  lemma ForbiddenOnlyExactly(before: string, word: string, after: string)
    requires IsForbidden(word)
    requires before != "" || after != ""
    ensures CheckPrototypePollution(before + word + after).Pass?
  {
    var k := before + word + after;
    assert |k| == |before| + |word| + |after|;
    if |word| == 11 {
      assert |k| > 11;
    } else {
      assert k[|before|] == word[0];
      if |k| == 11 {
        assert |before| <= 2;
        assert k[|before|] != "constructor"[|before|];
      }
    }
  }

  /** The first forbidden segment of a path, if any. */
  function FirstForbidden(parts: seq<string>): (r: Option<string>)
    ensures r.Some? ==> IsForbidden(r.value) && r.value in parts
    ensures r.None? <==> forall k :: 0 <= k < |parts| ==> !IsForbidden(parts[k])
  {
    if |parts| == 0 then None
    else if IsForbidden(parts[0]) then Some(parts[0])
    else FirstForbidden(parts[1..])
  }

  /** Removes the leading run of `.` characters. */
  function StripLeadingDots(key: string): (r: string)
    ensures r == "" || r[0] != '.'
    ensures |r| <= |key| && r == key[|key| - |r|..]
  {
    if |key| > 0 && key[0] == '.' then StripLeadingDots(key[1..]) else key
  }

  /** A canonical array-index property name ("0", "17", but not "01" or ""). */
  function ArrayIndex(key: string): (r: Option<nat>)
    ensures r.Some? ==> key != ""
  {
    if key == "" || (|key| > 1 && key[0] == '0') then None
    else DigitsValue(key)
  }

  function DigitsValue(key: string): Option<nat>
  {
    if |key| == 0 then Some(0)
    else
      var last := key[|key| - 1];
      if '0' <= last <= '9' then
        match DigitsValue(key[..|key| - 1])
        case None => None
        case Some(n) => Some(10 * n + (last as int - '0' as int))
      else None
  }

  /** The property read `node[key]`: a mapping's own key, an array element or string character by
      canonical index, or the `length` of an array or string. Inherited members (methods of the
      prototypes) and reads on other primitives are undefined here. */
  function Child(node: Value, key: string): (r: Option<Value>)
    ensures node.Obj? ==> r == (if key in node.fields then Some(node.fields[key]) else None)
    ensures node.Arr? && key == "length" ==> r == Some(Int(|node.items|))
    ensures node.Str? && key == "length" ==> r == Some(Int(|node.s|))
    ensures node.Arr? && ArrayIndex(key).Some? ==>
              r == (if ArrayIndex(key).value < |node.items| then Some(node.items[ArrayIndex(key).value]) else None)
    ensures node.Str? && ArrayIndex(key).Some? ==>
              r == (if ArrayIndex(key).value < |node.s| then Some(Str([node.s[ArrayIndex(key).value]])) else None)
    ensures node.Null? || node.Bool? || node.Int? ==> r.None?
  {
    match node
    case Obj(m) => if key in m then Some(m[key]) else None
    case Arr(items) =>
      if key == "length" then Some(Int(|items|))
      else
        (match ArrayIndex(key)
         case Some(n) => if n < |items| then Some(items[n]) else None
         case None => None)
    case Str(s) =>
      if key == "length" then Some(Int(|s|))
      else
        (match ArrayIndex(key)
         case Some(n) => if n < |s| then Some(Str([s[n]])) else None
         case None => None)
    case _ => None
  }

  /** The traversal loop of `queryNestedKey`: descend while segments remain and the node is neither
      null nor undefined. */
  function Walk(node: Option<Value>, stack: seq<string>): Option<Value>
    decreases |stack|
  {
    if |stack| == 0 || node.None? || node == Some(Null) then node
    else Walk(Child(node.value, stack[0]), stack[1..])
  }

  /** `queryNestedKey`: an absent or empty key yields the whole object; otherwise the leading dots are
      dropped and the dotted segments walked. */
  function QueryNestedKey(obj: Value, key: Option<string>): (r: Option<Value>)
    ensures key.None? || key == Some("") ==> r == Some(obj)
  {
    match key
    case None => Some(obj)
    case Some(k) => if k == "" then Some(obj) else Walk(Some(obj), Split(StripLeadingDots(k), "."))
  }

  /** Walking from undefined stays undefined. */
  lemma {:induction false} WalkFromUndefined(stack: seq<string>)
    ensures Walk(None, stack) == None
  {
  }

  /** Along a path of mappings the walk finds exactly the value the reference lookup finds. */
  lemma {:induction false} WalkFollowsLookup(v: Value, path: seq<string>)
    requires Lookup(v, path).Some?
    ensures Walk(Some(v), path) == Lookup(v, path)
    decreases |path|
  {
    if |path| > 0 {
      WalkFollowsLookup(v.fields[path[0]], path[1..]);
    }
  }

  /** When the mappings along a path run out of the next key, the walk yields undefined. */
  lemma {:induction false} WalkMissingSegment(v: Value, path: seq<string>, i: nat)
    requires i < |path|
    requires Lookup(v, path[..i]).Some? && Lookup(v, path[..i]).value.Obj?
    requires path[i] !in Lookup(v, path[..i]).value.fields
    ensures Walk(Some(v), path) == None
    decreases i
  {
    if i == 0 {
      WalkFromUndefined(path[1..]);
    } else {
      assert path[..i][0] == path[0];
      assert path[..i][1..] == path[1..][..i - 1];
      WalkMissingSegment(v.fields[path[0]], path[1..], i - 1);
    }
  }

  /** The walk stops at the first null along a path of mappings and returns that null. */
  lemma {:induction false} WalkStopsAtNull(v: Value, path: seq<string>, i: nat)
    requires i <= |path|
    requires Lookup(v, path[..i]) == Some(Null)
    ensures Walk(Some(v), path) == Some(Null)
    decreases i
  {
    if i > 0 {
      assert path[..i][0] == path[0];
      assert path[..i][1..] == path[1..][..i - 1];
      WalkStopsAtNull(v.fields[path[0]], path[1..], i - 1);
    }
  }

  /** `n` dots. */
  function Dots(n: nat): (r: string)
    ensures |r| == n && forall i :: 0 <= i < n ==> r[i] == '.'
  {
    if n == 0 then "" else "." + Dots(n - 1)
  }

  lemma {:induction false} StripDotsPrefix(n: nat, k: string)
    ensures StripLeadingDots(Dots(n) + k) == StripLeadingDots(k)
  {
    if n > 0 {
      assert (Dots(n) + k)[1..] == Dots(n - 1) + k;
      StripDotsPrefix(n - 1, k);
    } else {
      assert Dots(n) + k == k;
    }
  }

  /** Leading dots are ignored: querying `"...k"` is querying `"k"`. */
  lemma QueryIgnoresLeadingDots(obj: Value, n: nat, k: string)
    requires k != ""
    ensures QueryNestedKey(obj, Some(Dots(n) + k)) == QueryNestedKey(obj, Some(k))
  {
    var dotted := Dots(n) + k;
    assert |dotted| == n + |k|;
    StripDotsPrefix(n, k);
    var stripped := StripLeadingDots(k);
    assert QueryNestedKey(obj, Some(dotted)) == Walk(Some(obj), Split(stripped, "."));
  }

  /** The query itself performs no pollution check: a forbidden key is read like any other. */
  lemma QueryDoesNotCheckPollution(x: Value)
    ensures QueryNestedKey(Obj(map["__proto__" := x]), Some("__proto__")) == Some(x)
  {
    var key := "__proto__";
    assert '.' !in key by {
      forall i | 0 <= i < |key| ensures key[i] != '.' {
      }
    }
    SplitWithoutSeparator(key, '.');
    assert Split(key, ".") == [key];
    assert StripLeadingDots(key) == key;
    var obj := Obj(map[key := x]);
    assert Walk(Some(obj), [key]) == Walk(Some(x), []);
  }

  /** A module reference split at the separator: the module to require and the attribute to read. */
  datatype ModuleRef = ModuleRef(moduleName: string, attribute: Option<string>)

  /** The separator split inside `resolveModule`: at the LAST separator; without one the whole
      identifier names the module. */
  function ResolveModuleName(identifier: string, separator: char): (r: ModuleRef)
    ensures r.attribute.None? <==> separator !in identifier
    ensures r.attribute.None? ==> r.moduleName == identifier
    ensures r.attribute.Some? ==>
      r.moduleName + [separator] + r.attribute.value == identifier && separator !in r.attribute.value
  {
    match LastIndexOf(identifier, separator)
    case None => ModuleRef(identifier, None)
    case Some(i) =>
      assert identifier == identifier[..i] + [separator] + identifier[i + 1..];
      ModuleRef(identifier[..i], Some(identifier[i + 1..]))
  }
}
