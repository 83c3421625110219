/** Models src/builder.ts: deep merge, the configuration sources, the layered build and the typed
    accessor over its result. */
module Builder {
  import opened Wrappers
  import opened Strings
  import opened Values
  import opened Errors
  import opened Util

  // ---------------------------------------------------------------------------------------------
  // deepMerge

  /** Both sides of a key are plain mappings, so `deepMerge` recurses into them. */
  predicate Mergeable(base: Context, override: Context, k: string) {
    k in base && k in override && base[k].Obj? && override[k].Obj?
  }

  /** The forbidden keys `deepMerge` meets: those of every override level it recurses into.
      Subtrees that are copied wholesale are not inspected. */
  function ForbiddenMet(base: Context, override: Context): (found: set<string>)
    ensures forall n :: n in found ==> IsForbidden(n)
    ensures forall k :: k in override && IsForbidden(k) ==> k in found
    ensures forall k :: Mergeable(base, override, k) ==> ForbiddenMet(base[k].fields, override[k].fields) <= found
    ensures found == {} <==>
              (forall k :: k in override ==> !IsForbidden(k))
              && (forall k :: Mergeable(base, override, k) ==> ForbiddenMet(base[k].fields, override[k].fields) == {})
    decreases Obj(override)
  {
    (set k | k in override.Keys && IsForbidden(k))
    + (set k, n | k in override.Keys && Mergeable(base, override, k)
                  && n in ForbiddenMet(base[k].fields, override[k].fields) :: n)
  }

  /** The merged tree when no forbidden key is met. */
  function MergeFields(base: Context, override: Context): (r: Context)
    ensures r.Keys == base.Keys + override.Keys
    ensures forall k :: k in base && k !in override ==> r[k] == base[k]
    ensures forall k :: k in override && !Mergeable(base, override, k) ==> r[k] == override[k]
    ensures forall k :: Mergeable(base, override, k) ==> r[k].Obj?
    decreases Obj(override)
  {
    map k | k in base.Keys + override.Keys ::
      if Mergeable(base, override, k) then Obj(MergeFields(base[k].fields, override[k].fields))
      else if k in override then override[k]
      else base[k]
  }

  /** `deepMerge`: a fresh tree holding base's keys, overridden key by key; two mappings under the
      same key merge recursively, anything else (null, an array, a primitive) replaces wholesale.
      Which forbidden key the error names when several are met is fixed here as the first of
      `__proto__`, `prototype`, `constructor`. */
  function DeepMerge(base: Context, override: Context): (r: Result<Context, Error>)
    ensures r.Err? <==> ForbiddenMet(base, override) != {}
    ensures r.Err? ==> r.error.Pollution? && r.error.key in ForbiddenMet(base, override)
    ensures r.Ok? ==> r.value == MergeFields(base, override)
  {
    var found := ForbiddenMet(base, override);
    if "__proto__" in found then Err(Pollution("__proto__"))
    else if "prototype" in found then Err(Pollution("prototype"))
    else if "constructor" in found then Err(Pollution("constructor"))
    else
      assert found == {} by {
        forall n | n in found ensures false {
        }
      }
      Ok(MergeFields(base, override))
  }

  /** Merging an empty override returns the base. */
  lemma MergeEmptyOverride(base: Context)
    ensures DeepMerge(base, map[]) == Ok(base)
  {
    assert ForbiddenMet(base, map[]) == {};
    assert MergeFields(base, map[]) == base;
  }

  /** Merging into an empty base copies the override, checking only its top-level keys. */
  lemma MergeIntoEmpty(override: Context)
    ensures DeepMerge(map[], override).Ok? <==> forall k :: k in override ==> !IsForbidden(k)
    ensures DeepMerge(map[], override).Ok? ==> DeepMerge(map[], override).value == override
  {
    var found := ForbiddenMet(map[], override);
    assert found == (set k | k in override.Keys && IsForbidden(k));
    if forall k :: k in override ==> !IsForbidden(k) {
      assert found == {};
      assert MergeFields(map[], override) == override;
    } else {
      var k :| k in override && IsForbidden(k);
      assert k in found;
    }
  }

  /** Merging a tree with itself gives the tree back. */
  lemma {:induction false} MergeFieldsSelf(x: Context)
    ensures MergeFields(x, x) == x
    decreases Obj(x)
  {
    forall k | k in x && Mergeable(x, x, k) ensures MergeFields(x[k].fields, x[k].fields) == x[k].fields {
      MergeFieldsSelf(x[k].fields);
    }
  }

  /** A non-mapping leaf of the override wins at its path, whatever the base holds there. */
  lemma {:induction false} OverrideLeafWins(base: Context, override: Context, p: seq<string>, x: Value)
    requires Lookup(Obj(override), p) == Some(x) && !x.Obj?
    ensures Lookup(Obj(MergeFields(base, override)), p) == Some(x)
    decreases |p|
  {
    assert |p| > 0;
    var k := p[0];
    if Mergeable(base, override, k) {
      OverrideLeafWins(base[k].fields, override[k].fields, p[1..], x);
    } else {
      assert Lookup(override[k], p[1..]) == Some(x);
    }
  }

  /** A base value survives when the override's mappings along its path run out of the next key
      before reaching it. */
  lemma {:induction false} BaseValueSurvives(base: Context, override: Context, p: seq<string>, j: nat, x: Value)
    requires j < |p|
    requires Lookup(Obj(base), p) == Some(x)
    requires Lookup(Obj(override), p[..j]).Some? && Lookup(Obj(override), p[..j]).value.Obj?
    requires p[j] !in Lookup(Obj(override), p[..j]).value.fields
    ensures Lookup(Obj(MergeFields(base, override)), p) == Some(x)
    decreases j
  {
    var k := p[0];
    if j == 0 {
      assert k !in override;
    } else {
      assert p[..j][0] == k;
      assert p[..j][1..] == p[1..][..j - 1];
      assert Mergeable(base, override, k);
      BaseValueSurvives(base[k].fields, override[k].fields, p[1..], j - 1, x);
    }
  }

  // ---------------------------------------------------------------------------------------------
  // EnvSource

  /** The name prefix an `EnvSource` admits: the upper-cased prefix followed by the separator. */
  function EnvPrefix(prefix: string, separator: string): string {
    ToUpper(prefix) + separator
  }

  /** A variable is used when it is defined and its name starts with the full prefix (case-sensitive). */
  predicate Admits(fullPrefix: string, name: string, value: Option<string>) {
    value.Some? && StartsWith(name, fullPrefix)
  }

  /** The configuration path of an admitted variable: the rest of its name, lower-cased and split. */
  function EnvPath(fullPrefix: string, separator: string, name: string): seq<string>
    requires StartsWith(name, fullPrefix)
  {
    Split(ToLower(name[|fullPrefix|..]), separator)
  }

  /** `EnvSource.setNested`: a missing or non-mapping intermediate becomes a fresh mapping; every
      part is checked before use. */
  function SetNested(fields: Context, parts: seq<string>, value: string): (r: Result<Context, Error>)
    ensures r.Err? <==> FirstForbidden(parts).Some?
    ensures r.Err? ==> r.error == Pollution(FirstForbidden(parts).value)
    ensures r.Ok? && |parts| > 0 ==> Lookup(Obj(r.value), parts) == Some(Str(value))
    ensures r.Ok? && |parts| == 0 ==> r.value == fields
    ensures r.Ok? && |parts| > 0 ==>
              forall j :: j != parts[0] ==> (j in r.value <==> j in fields) && (j in fields ==> r.value[j] == fields[j])
    decreases |parts|
  {
    if |parts| == 0 then Ok(fields)
    else
      var part := parts[0];
      match CheckPrototypePollution(part)
      case Fail(e) => Err(e)
      case Pass =>
        if |parts| == 1 then Ok(fields[part := Str(value)])
        else
          var child := if part in fields && fields[part].Obj? then fields[part].fields else map[];
          match SetNested(child, parts[1..], value)
          case Err(e) => Err(e)
          case Ok(inner) => Ok(fields[part := Obj(inner)])
  }

  /** A value reachable through mappings along a path that leaves the written path at part `i` is
      still there afterwards: an existing mapping is written into, not replaced. */
  lemma {:induction false} SetNestedKeepsSiblings(fields: Context, parts: seq<string>, value: string,
                                                  q: seq<string>, i: nat)
    requires i < |parts| && i < |q|
    requires q[..i] == parts[..i] && q[i] != parts[i]
    requires FirstForbidden(parts).None?
    requires Lookup(Obj(fields), q).Some?
    ensures SetNested(fields, parts, value).Ok?
    ensures Lookup(Obj(SetNested(fields, parts, value).value), q) == Lookup(Obj(fields), q)
    decreases i
  {
    var part := parts[0];
    if i > 0 {
      assert q[0] == q[..i][0] == parts[..i][0] == part;
      assert FirstForbidden(parts[1..]).None?;
      assert q[1..][..i - 1] == q[..i][1..];
      assert parts[1..][..i - 1] == parts[..i][1..];
      SetNestedKeepsSiblings(fields[part].fields, parts[1..], value, q[1..], i - 1);
    }
  }

  /** Two variables sharing their first part end up side by side under it. */
  lemma SetNestedSideBySide(a: string, b: string, c: string, v: string, w: string)
    requires !IsForbidden(a) && !IsForbidden(b) && !IsForbidden(c) && b != c
    ensures SetNested(map[], [a, b], v).Ok?
    ensures SetNested(SetNested(map[], [a, b], v).value, [a, c], w)
            == Ok(map[a := Obj(map[b := Str(v), c := Str(w)])])
  {
    assert [a, b][1..] == [b];
    assert [a, c][1..] == [c];
    assert SetNested(map[], [b], v) == Ok(map[b := Str(v)]);
    var first := map[a := Obj(map[b := Str(v)])];
    assert SetNested(map[], [a, b], v) == Ok(first);
    assert SetNested(map[b := Str(v)], [c], w) == Ok(map[b := Str(v), c := Str(w)]);
    assert SetNested(first, [a, c], w) == Ok(first[a := Obj(map[b := Str(v), c := Str(w)])]);
    assert first[a := Obj(map[b := Str(v), c := Str(w)])] == map[a := Obj(map[b := Str(v), c := Str(w)])];
  }

  /** The variables of the process environment, in enumeration order; `None` is an undefined value. */
  type Environment = seq<(string, Option<string>)>

  /** `EnvSource.load`: the variables are applied in enumeration order, so the last one written to a
      path wins. */
  function EnvLoad(env: Environment, prefix: string, separator: string): (r: Result<Context, Error>)
    ensures r.Err? <==> exists k :: 0 <= k < |env| && Polluted(EnvPrefix(prefix, separator), separator, env[k])
    ensures r.Err? ==> r.error.Pollution?
    decreases |env|
  {
    if |env| == 0 then Ok(map[])
    else
      var init := env[..|env| - 1];
      assert forall k :: 0 <= k < |init| ==> init[k] == env[k];
      var acc :- EnvLoad(init, prefix, separator);
      EnvStep(acc, env[|env| - 1], EnvPrefix(prefix, separator), separator)
  }

  /** An admitted variable whose path holds a forbidden part. */
  predicate Polluted(fullPrefix: string, separator: string, variable: (string, Option<string>)) {
    Admits(fullPrefix, variable.0, variable.1) && FirstForbidden(EnvPath(fullPrefix, separator, variable.0)).Some?
  }

  function EnvStep(acc: Context, variable: (string, Option<string>), fullPrefix: string, separator: string)
    : (r: Result<Context, Error>)
    ensures r.Err? <==> Polluted(fullPrefix, separator, variable)
    ensures r.Err? ==> r.error.Pollution?
  {
    var (name, value) := variable;
    if Admits(fullPrefix, name, value) then
      SetNested(acc, EnvPath(fullPrefix, separator, name), value.value)
    else Ok(acc)
  }

  /** A tree built from environment variables: strings and mappings only. */
  predicate StringTree(v: Value)
    decreases v
  {
    match v
    case Str(_) => true
    case Obj(m) => forall k :: k in m ==> StringTree(m[k])
    case _ => false
  }

  lemma {:induction false} SetNestedKeepsStringTree(fields: Context, parts: seq<string>, value: string)
    requires StringTree(Obj(fields))
    requires SetNested(fields, parts, value).Ok?
    ensures StringTree(Obj(SetNested(fields, parts, value).value))
    decreases |parts|
  {
    if |parts| > 1 {
      var part := parts[0];
      var child := if part in fields && fields[part].Obj? then fields[part].fields else map[];
      SetNestedKeepsStringTree(child, parts[1..], value);
    }
  }

  /** Only strings and mappings come out of an `EnvSource`, so the null and array cases of the
      intermediate check never arise. */
  lemma {:induction false} EnvLoadBuildsStringTree(env: Environment, prefix: string, separator: string)
    requires EnvLoad(env, prefix, separator).Ok?
    ensures StringTree(Obj(EnvLoad(env, prefix, separator).value))
    decreases |env|
  {
    if |env| > 0 {
      var init := env[..|env| - 1];
      EnvLoadBuildsStringTree(init, prefix, separator);
      var acc := EnvLoad(init, prefix, separator).value;
      var (name, value) := env[|env| - 1];
      var fullPrefix := EnvPrefix(prefix, separator);
      if Admits(fullPrefix, name, value) {
        SetNestedKeepsStringTree(acc, EnvPath(fullPrefix, separator, name), value.value);
      }
    }
  }

  /** A variable without the prefix, or without a value, changes nothing. */
  lemma EnvIgnoresUnadmitted(env: Environment, prefix: string, separator: string, name: string, value: Option<string>)
    requires !Admits(EnvPrefix(prefix, separator), name, value)
    ensures EnvLoad(env + [(name, value)], prefix, separator) == EnvLoad(env, prefix, separator)
  {
    assert (env + [(name, value)])[..|env|] == env;
  }

  /** The last admitted variable for a path sets it to its string value. */
  lemma EnvLastWriteWins(env: Environment, prefix: string, separator: string, name: string, value: string)
    requires Admits(EnvPrefix(prefix, separator), name, Some(value))
    requires EnvLoad(env, prefix, separator).Ok?
    requires |EnvPath(EnvPrefix(prefix, separator), separator, name)| > 0
    requires FirstForbidden(EnvPath(EnvPrefix(prefix, separator), separator, name)).None?
    ensures EnvLoad(env + [(name, Some(value))], prefix, separator).Ok?
    ensures Lookup(Obj(EnvLoad(env + [(name, Some(value))], prefix, separator).value),
                   EnvPath(EnvPrefix(prefix, separator), separator, name)) == Some(Str(value))
  {
    assert (env + [(name, Some(value))])[..|env|] == env;
  }

  /** A later variable whose path leaves an earlier value's path keeps that value: the source's own
      example, `MYAPP__DATABASE__HOST` then `MYAPP__DATABASE__PORT`, keeps the host beside the port. */
  lemma EnvKeepsEarlierValue(env: Environment, prefix: string, separator: string, name: string, value: string,
                             q: seq<string>, i: nat)
    requires Admits(EnvPrefix(prefix, separator), name, Some(value))
    requires EnvLoad(env, prefix, separator).Ok?
    requires var path := EnvPath(EnvPrefix(prefix, separator), separator, name);
             i < |path| && i < |q| && q[..i] == path[..i] && q[i] != path[i] && FirstForbidden(path).None?
    requires Lookup(Obj(EnvLoad(env, prefix, separator).value), q).Some?
    ensures EnvLoad(env + [(name, Some(value))], prefix, separator).Ok?
    ensures Lookup(Obj(EnvLoad(env + [(name, Some(value))], prefix, separator).value), q)
            == Lookup(Obj(EnvLoad(env, prefix, separator).value), q)
  {
    assert (env + [(name, Some(value))])[..|env|] == env;
    SetNestedKeepsSiblings(EnvLoad(env, prefix, separator).value,
                           EnvPath(EnvPrefix(prefix, separator), separator, name), value, q, i);
  }

  /** An admitted variable whose path holds a forbidden part makes the whole source fail. */
  lemma EnvForbiddenPartFails(env: Environment, prefix: string, separator: string, name: string, value: string)
    requires Admits(EnvPrefix(prefix, separator), name, Some(value))
    requires FirstForbidden(EnvPath(EnvPrefix(prefix, separator), separator, name)).Some?
    ensures EnvLoad(env + [(name, Some(value))], prefix, separator).Err?
  {
    assert (env + [(name, Some(value))])[..|env|] == env;
  }

  // ---------------------------------------------------------------------------------------------
  // Sources and the layered build

  /** A configuration source. A file source is represented by the outcome of loading it through the
      load pipeline, and whether it is required. */
  datatype Source =
    | Memory(data: Context)
    | File(loaded: Result<Context, Error>, required: bool)
    | EnvVars(prefix: string, separator: string)

  /** `FileSource.load`'s error mapping: an optional file that fails to load contributes `{}`. */
  function FileSourceLoad(loaded: Result<Context, Error>, required: bool): (r: Result<Context, Error>)
    ensures loaded.Ok? ==> r == loaded
    ensures loaded.Err? ==> (r.Ok? <==> !required)
    ensures loaded.Err? && !required ==> r == Ok(map[])
    ensures r.Err? ==> r == loaded
  {
    match loaded
    case Ok(data) => Ok(data)
    case Err(e) => if required then Err(e) else Ok(map[])
  }

  /** `load` of each kind of source: a memory source yields its tree, a file source its loaded tree
      (or `{}` when optional and failed), an environment source the tree of its variables. */
  function LoadSource(s: Source, env: Environment): (r: Result<Context, Error>)
    ensures s.Memory? ==> r == Ok(s.data)
    ensures s.File? ==> (r.Err? <==> s.loaded.Err? && s.required)
    ensures s.EnvVars? ==>
              (r.Err? <==> exists k :: 0 <= k < |env| && Polluted(EnvPrefix(s.prefix, s.separator), s.separator, env[k]))
  {
    match s
    case Memory(data) => Ok(data)
    case File(loaded, required) => FileSourceLoad(loaded, required)
    case EnvVars(prefix, separator) => EnvLoad(env, prefix, separator)
  }

  /** `ConfigBuilder.build`: a left fold of `deepMerge` over the sources' outputs, starting from `{}`. */
  function Build(sources: seq<Source>, env: Environment): (r: Result<Context, Error>)
    ensures r.Ok? ==> forall i :: 0 <= i < |sources| ==> LoadSource(sources[i], env).Ok?
    ensures r.Err? && (forall i :: 0 <= i < |sources| ==> LoadSource(sources[i], env).Ok?) ==> r.error.Pollution?
    decreases |sources|
  {
    if |sources| == 0 then Ok(map[])
    else
      var init := sources[..|sources| - 1];
      assert forall i :: 0 <= i < |init| ==> init[i] == sources[i];
      var merged :- Build(init, env);
      var data :- LoadSource(sources[|sources| - 1], env);
      DeepMerge(merged, data)
  }

  /** Appending a source merges its output over everything built so far. */
  lemma BuildAppend(sources: seq<Source>, s: Source, env: Environment)
    ensures Build(sources + [s], env) ==
      (match Build(sources, env)
       case Err(e) => Err(e)
       case Ok(merged) =>
         (match LoadSource(s, env)
          case Err(e) => Err(e)
          case Ok(data) => DeepMerge(merged, data)))
  {
    assert (sources + [s])[..|sources|] == sources;
  }

  /** A later source wins at every leaf it defines. */
  lemma BuildLaterSourceWins(sources: seq<Source>, s: Source, env: Environment, p: seq<string>, x: Value)
    requires Build(sources + [s], env).Ok?
    requires LoadSource(s, env).Ok?
    requires Lookup(Obj(LoadSource(s, env).value), p) == Some(x) && !x.Obj?
    ensures Lookup(Obj(Build(sources + [s], env).value), p) == Some(x)
  {
    BuildAppend(sources, s, env);
    OverrideLeafWins(Build(sources, env).value, LoadSource(s, env).value, p, x);
  }

  /** An optional file that fails to load leaves the build unchanged; a required one fails it. */
  lemma BuildFailedFile(sources: seq<Source>, e: Error, required: bool, env: Environment)
    ensures !required ==> Build(sources + [File(Err(e), required)], env) == Build(sources, env)
    ensures required ==> Build(sources + [File(Err(e), required)], env).Err?
  {
    BuildAppend(sources, File(Err(e), required), env);
    if Build(sources, env).Ok? {
      MergeEmptyOverride(Build(sources, env).value);
    }
  }

  // ---------------------------------------------------------------------------------------------
  // TypedConfig

  /** The read loop of `TypedConfig.get`: each segment is checked just before use, and reaching null
      or undefined ends the read with undefined. */
  function GetParts(current: Option<Value>, parts: seq<string>): (r: Result<Option<Value>, Error>)
    ensures r.Err? ==> r.error.Pollution? && IsForbidden(r.error.key) && r.error.key in parts
    ensures FirstForbidden(parts).None? ==> r.Ok?
    ensures |parts| > 0 && !IsForbidden(parts[0]) && (current.None? || current == Some(Null)) ==> r == Ok(None)
    decreases |parts|
  {
    if |parts| == 0 then Ok(current)
    else
      match CheckPrototypePollution(parts[0])
      case Fail(e) => Err(e)
      case Pass =>
        if current.None? || current == Some(Null) then Ok(None)
        else GetParts(Child(current.value, parts[0]), parts[1..])
  }

  /** The merged configuration behind typed accessors. */
  datatype TypedConfig = TypedConfig(data: Context)

  /** `TypedConfig.get`: undefined for a missing path or a path through null, never a missing-key error. */
  function TypedGet(config: TypedConfig, path: string): (r: Result<Option<Value>, Error>)
    ensures r.Err? ==> r.error.Pollution?
  {
    GetParts(Some(Obj(config.data)), Split(path, "."))
  }

  /** `getString`: a string as is, else the default, else undefined. */
  function GetString(config: TypedConfig, path: string, default: Option<string>): Result<Option<string>, Error> {
    var v :- TypedGet(config, path);
    match v
    case Some(Str(s)) => Ok(Some(s))
    case _ => Ok(if default.Some? then default else None)
  }

  /** The string spellings `getBoolean` understands, compared case-insensitively. */
  function ParseBoolean(s: string): (r: Option<bool>)
    ensures r == Some(true) <==> ToLower(s) == "true" || s == "1"
    ensures r == Some(false) <==> ToLower(s) == "false" || s == "0"
  {
    var lower := ToLower(s);
    if lower == "true" || lower == "1" then Some(true)
    else if lower == "false" || lower == "0" then Some(false)
    else None
  }

  /** `getBoolean`: a boolean as is, a recognised string converted, else the default, else undefined. */
  function GetBoolean(config: TypedConfig, path: string, default: Option<bool>): Result<Option<bool>, Error> {
    var v :- TypedGet(config, path);
    match v
    case Some(Bool(b)) => Ok(Some(b))
    case Some(Str(s)) =>
      (match ParseBoolean(s)
       case Some(b) => Ok(Some(b))
       case None => Ok(if default.Some? then default else None))
    case _ => Ok(if default.Some? then default else None)
  }

  /** `has`: the path reads as something other than undefined. */
  function Has(config: TypedConfig, path: string): Result<bool, Error> {
    var v :- TypedGet(config, path);
    Ok(v.Some?)
  }

  /** Along a path of mappings without forbidden parts, the read finds exactly the value the
      reference lookup finds. */
  lemma {:induction false} GetPartsFollowsLookup(v: Value, parts: seq<string>)
    requires FirstForbidden(parts).None?
    requires Lookup(v, parts).Some?
    ensures GetParts(Some(v), parts) == Ok(Lookup(v, parts))
    decreases |parts|
  {
    if |parts| > 0 {
      assert !IsForbidden(parts[0]);
      assert FirstForbidden(parts[1..]).None?;
      GetPartsFollowsLookup(v.fields[parts[0]], parts[1..]);
    }
  }

  /** When the mappings along a path run out of the next part, the read is undefined. */
  lemma {:induction false} GetPartsMissingSegment(v: Value, parts: seq<string>, i: nat)
    requires FirstForbidden(parts).None?
    requires i < |parts|
    requires Lookup(v, parts[..i]).Some? && Lookup(v, parts[..i]).value.Obj?
    requires parts[i] !in Lookup(v, parts[..i]).value.fields
    ensures GetParts(Some(v), parts) == Ok(None)
    decreases i
  {
    assert !IsForbidden(parts[0]);
    assert FirstForbidden(parts[1..]).None?;
    if i > 0 {
      assert parts[..i][0] == parts[0];
      assert parts[..i][1..] == parts[1..][..i - 1];
      GetPartsMissingSegment(v.fields[parts[0]], parts[1..], i - 1);
    }
  }

  /** A forbidden part that the read reaches rejects it, whatever the value there is. */
  lemma {:induction false} GetPartsPollution(v: Value, parts: seq<string>, i: nat)
    requires i < |parts| && IsForbidden(parts[i])
    requires forall j :: 0 <= j < i ==> !IsForbidden(parts[j])
    requires Lookup(v, parts[..i]).Some?
    ensures GetParts(Some(v), parts) == Err(Pollution(parts[i]))
    decreases i
  {
    if i > 0 {
      assert !IsForbidden(parts[0]);
      assert parts[..i][0] == parts[0];
      assert parts[..i][1..] == parts[1..][..i - 1];
      assert forall j :: 0 <= j < i - 1 ==> parts[1..][j] == parts[j + 1];
      GetPartsPollution(v.fields[parts[0]], parts[1..], i - 1);
    }
  }

  /** The typed accessors on a stored value: `get` returns it, `getString` returns it when it is a
      string and the default otherwise, `getBoolean` returns a boolean or a recognised string's value
      and the default otherwise, and `has` is true, even for a stored null. */
  lemma ReadStoredValue(config: TypedConfig, path: string, v: Value, ds: Option<string>, db: Option<bool>)
    requires FirstForbidden(Split(path, ".")).None?
    requires Lookup(Obj(config.data), Split(path, ".")) == Some(v)
    ensures TypedGet(config, path) == Ok(Some(v))
    ensures GetString(config, path, ds) == Ok(if v.Str? then Some(v.s) else ds)
    ensures GetBoolean(config, path, db) ==
              Ok(match v
                 case Bool(b) => Some(b)
                 case Str(s) => if ParseBoolean(s).Some? then ParseBoolean(s) else db
                 case _ => db)
    ensures Has(config, path) == Ok(true)
  {
    GetPartsFollowsLookup(Obj(config.data), Split(path, "."));
  }

  /** The typed accessors on a path whose mappings run out at part `i`: undefined, the defaults,
      and `has` false. */
  lemma ReadMissingPath(config: TypedConfig, path: string, i: nat, ds: Option<string>, db: Option<bool>)
    requires FirstForbidden(Split(path, ".")).None?
    requires var parts := Split(path, ".");
             && i < |parts|
             && Lookup(Obj(config.data), parts[..i]).Some? && Lookup(Obj(config.data), parts[..i]).value.Obj?
             && parts[i] !in Lookup(Obj(config.data), parts[..i]).value.fields
    ensures TypedGet(config, path) == Ok(None)
    ensures GetString(config, path, ds) == Ok(ds)
    ensures GetBoolean(config, path, db) == Ok(db)
    ensures Has(config, path) == Ok(false)
  {
    GetPartsMissingSegment(Obj(config.data), Split(path, "."), i);
  }

  /** The typed accessors reject a path as soon as they reach a forbidden part. */
  lemma ReadForbiddenSegment(config: TypedConfig, path: string, i: nat, ds: Option<string>, db: Option<bool>)
    requires var parts := Split(path, ".");
             && i < |parts| && IsForbidden(parts[i])
             && (forall j :: 0 <= j < i ==> !IsForbidden(parts[j]))
             && Lookup(Obj(config.data), parts[..i]).Some?
    ensures var e := Pollution(Split(path, ".")[i]);
            && TypedGet(config, path) == Err(e)
            && GetString(config, path, ds) == Err(e)
            && GetBoolean(config, path, db) == Err(e)
            && Has(config, path) == Err(e)
  {
    GetPartsPollution(Obj(config.data), Split(path, "."), i);
  }

  /** `all`: the whole merged configuration. */
  function All(config: TypedConfig): Context {
    config.data
  }

  /** Every top-level entry of `all()` is what `get` reads under its key, when that key is a single
      permitted segment. */
  lemma AllAgreesWithGet(config: TypedConfig, k: string)
    requires k in All(config) && '.' !in k && !IsForbidden(k)
    ensures TypedGet(config, k) == Ok(Some(All(config)[k]))
  {
    SplitWithoutSeparator(k, '.');
    assert Split(k, ".") == [k];
    assert GetParts(Some(Obj(config.data)), [k]) == GetParts(Some(config.data[k]), []);
  }

  /** Reading through null gives undefined. The segment right after the null is still checked for
      pollution (here `nested`, which is allowed); the segments after that one are never checked. */
  lemma TypedGetThroughNull(rest: seq<string>)
    ensures GetParts(Some(Obj(map["value" := Null])), ["value", "nested"] + rest) == Ok(None)
  {
    var parts := ["value", "nested"] + rest;
    assert parts[0] == "value" && parts[1..][0] == "nested";
    assert GetParts(Some(Obj(map["value" := Null])), parts) == GetParts(Some(Null), parts[1..]);
  }
}
