/** Models src/formatters/defaults.ts: extension matching and the ordered default formatter table. */
module FormatterDefaults {
  import opened Wrappers
  import opened Strings
  import opened Posix
  import opened Providers

  /** `ensureDot`: prefixes `.` unless the string already starts with one. */
  function EnsureDot(val: string): (r: string)
    ensures |r| > 0 && r[0] == '.'
    ensures StartsWith(val, ".") ==> r == val
    ensures !StartsWith(val, ".") ==> r == "." + val
  {
    if |val| == 0 || val[0] != '.' then "." + val else val
  }

  lemma EnsureDotIdempotent(val: string)
    ensures EnsureDot(EnsureDot(val)) == EnsureDot(val)
  {
  }

  /** A candidate matches a type when both agree up to a leading dot, or when the candidate's
      extension is the type. */
  predicate Matches(formatterType: string, potential: string) {
    var typeWithDot := EnsureDot(formatterType);
    typeWithDot == EnsureDot(potential) || typeWithDot == Extname(potential)
  }

  /** `provides(type)`: one answer per candidate, in order. */
  function Provides(formatterType: string, potentials: seq<string>): (r: seq<bool>)
    ensures |r| == |potentials|
    ensures forall i :: 0 <= i < |r| ==> (r[i] <==> Matches(formatterType, potentials[i]))
  {
    seq(|potentials|, i requires 0 <= i < |potentials| => Matches(formatterType, potentials[i]))
  }

  /** For a type written without a dot, a candidate matches exactly when it is the type, the type
      with a dot, or a name whose extension is the type. */
  lemma MatchesCharacterised(t: string, c: string)
    requires !StartsWith(t, ".")
    ensures Matches(t, c) <==> c == t || c == "." + t || Extname(c) == "." + t
  {
    assert EnsureDot(t) == "." + t;
    if !StartsWith(c, ".") {
      assert EnsureDot(c) == "." + c;
      if "." + c == "." + t {
        assert c == ("." + c)[1..];
      }
    }
  }

  /** Extension matching is exact: `json` claims every plain `stem.json`, `.json` and `json`. */
  lemma JsonClaimsJsonFiles(stem: string)
    requires |stem| > 0 && '.' !in stem && '/' !in stem
    ensures Matches("json", stem + ".json") && Matches("json", ".json") && Matches("json", "json")
  {
    assert stem + ".json" == stem + "." + "json";
    assert "json"[..1][0] == 'j';
    MatchesCharacterised("json", stem + ".json");
    ExtnameOfPlain(stem, "json");
  }

  /** ... but `json` does not claim the bare type `json5` ... */
  lemma JsonDoesNotClaimJson5()
    ensures !Matches("json", "json5")
  {
    assert '.' !in "json" && '.' !in "json5" && '/' !in "json5";
    assert |"json5"| != |"json"|;
    MatchesBareName("json", "json5");
  }

  /** A plain name whose extension differs from a dot-free type is not claimed by it. */
  lemma OtherExtensionNotClaimed(t: string, stem: string, ext: string)
    requires '.' !in t && ext != t
    requires |stem| > 0 && '.' !in stem && '/' !in stem && '.' !in ext && '/' !in ext
    ensures !Matches(t, stem + "." + ext)
  {
    var c := stem + "." + ext;
    assert c[|stem|] == '.';
    assert c != t;
    assert c[0] == stem[0];
    assert !StartsWith(t, ".") by { if |t| > 0 { assert t[..1][0] == t[0]; } }
    MatchesCharacterised(t, c);
    ExtnameOfPlain(stem, ext);
    assert ("." + ext)[1..] == ext && ("." + t)[1..] == t;
  }

  /** The default formatter table as (type, module) pairs, in registration order. */
  const FormatterTable: seq<(string, string)> := [
    ("json", "./formatters/json:JSONFormatter"),
    ("yml", "./formatters/yaml:YAMLFormatter"),
    ("yaml", "./formatters/yaml:YAMLFormatter"),
    ("xml", "./formatters/xml:XMLFormatter"),
    ("ini", "./formatters/ini:INIFormatter"),
    ("json5", "./formatters/json5:JSON5Formatter"),
    ("jsonc", "./formatters/json5:JSON5Formatter")
  ]

  /** `defaultFormatters`. */
  function DefaultFormatters(): (r: seq<Provider>)
    ensures |r| == |FormatterTable|
    ensures forall i :: 0 <= i < |r| ==> r[i].moduleId == FormatterTable[i].1
    ensures forall i, ps :: 0 <= i < |r| ==> r[i].claims(ps) == Provides(FormatterTable[i].0, ps)
  {
    seq(|FormatterTable|, i requires 0 <= i < |FormatterTable| =>
      Provider(ps => Provides(FormatterTable[i].0, ps), FormatterTable[i].1))
  }

  /** A bare candidate (no dot, no slash) matches a dot-free type exactly when it is that type. */
  lemma MatchesBareName(t: string, c: string)
    requires '.' !in t && '.' !in c && '/' !in c
    ensures Matches(t, c) <==> t == c
  {
    assert !StartsWith(t, ".") by { if |t| > 0 { assert t[..1][0] == t[0]; } }
    MatchesCharacterised(t, c);
    ExtnameWithoutDot(c);
    assert ("." + t)[0] == '.';
  }

  /** The first table position registered for a formatter type. */
  function TypeIndex(c: string): (r: Option<nat>)
    ensures r.Some? ==> r.value < |FormatterTable| && FormatterTable[r.value].0 == c
                        && forall j :: 0 <= j < r.value ==> FormatterTable[j].0 != c
    ensures r.None? ==> forall j :: 0 <= j < |FormatterTable| ==> FormatterTable[j].0 != c
  {
    if c == "json" then Some(0)
    else if c == "yml" then Some(1)
    else if c == "yaml" then Some(2)
    else if c == "xml" then Some(3)
    else if c == "ini" then Some(4)
    else if c == "json5" then Some(5)
    else if c == "jsonc" then Some(6)
    else None
  }

  /** No registered type contains a dot. */
  lemma TableTypesHaveNoDot()
    ensures forall i :: 0 <= i < |FormatterTable| ==> '.' !in FormatterTable[i].0
  {
    assert '.' !in "json" && '.' !in "yml" && '.' !in "yaml" && '.' !in "xml";
    assert '.' !in "ini" && '.' !in "json5" && '.' !in "jsonc";
  }

  /** For a bare candidate the default registry claims exactly the entries whose type it names. */
  lemma DefaultClaimsForBareName(c: string, i: nat)
    requires '.' !in c && '/' !in c && i < |FormatterTable|
    ensures true in DefaultFormatters()[i].claims([c]) <==> FormatterTable[i].0 == c
  {
    TableTypesHaveNoDot();
    MatchesBareName(FormatterTable[i].0, c);
    var answers := DefaultFormatters()[i].claims([c]);
    assert answers == Provides(FormatterTable[i].0, [c]);
    assert |answers| == 1 && (answers[0] <==> Matches(FormatterTable[i].0, c));
    assert true in answers <==> answers[0];
  }

  /** The registry shares modules between aliases and has no TOML entry. */
  lemma RegistryAliases()
    ensures TypeIndex("yml").Some? && TypeIndex("yaml").Some?
    ensures FormatterTable[TypeIndex("yml").value].1 == FormatterTable[TypeIndex("yaml").value].1
    ensures TypeIndex("json5").Some? && TypeIndex("jsonc").Some?
    ensures FormatterTable[TypeIndex("json5").value].1 == FormatterTable[TypeIndex("jsonc").value].1
    ensures FormatterTable[TypeIndex("json").value].1 != FormatterTable[TypeIndex("json5").value].1
    ensures TypeIndex("toml").None?
  {
  }
}
