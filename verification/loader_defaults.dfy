/** Models src/loaders/defaults.ts: the file-name language and the default loader table. */
module LoaderDefaults {
  import opened Strings
  import opened Providers

  /** A character the pattern admits after an optional `/`. */
  predicate Permitted(c: char) {
    c !in "/?*:;{}\\"
  }

  /** `((\/)?[^/?*:;{}\\])+`: a non-empty run of units, each an optional `/` then a permitted character. */
  predicate Units(t: string)
    decreases |t|
  {
    |t| > 0 &&
    if t[0] == '/' then |t| >= 2 && Permitted(t[1]) && (|t| == 2 || Units(t[2..]))
    else Permitted(t[0]) && (|t| == 1 || Units(t[1..]))
  }

  /** `fileNamePattern`: an optional single `file://` prefix, then the units, anchored at both ends. */
  predicate MatchesFileName(s: string) {
    (StartsWith(s, "file://") && Units(s[7..])) || Units(s)
  }

  /** The same language described without recursion: non-empty, only permitted characters and `/`,
      no `//`, and no trailing `/`. */
  predicate UnitsShape(t: string) {
    && |t| > 0
    && (forall i :: 0 <= i < |t| ==> t[i] == '/' || Permitted(t[i]))
    && (forall i :: 0 <= i < |t| - 1 ==> t[i] == '/' ==> t[i + 1] != '/')
    && t[|t| - 1] != '/'
  }

  lemma {:induction false} UnitsIsShape(t: string)
    ensures Units(t) <==> UnitsShape(t)
    decreases |t|
  {
    if |t| == 0 {
    } else if t[0] == '/' {
      if |t| > 2 {
        UnitsIsShape(t[2..]);
        if UnitsShape(t) {
          assert t[1] != '/';
          assert UnitsShape(t[2..]) by {
            forall i | 0 <= i < |t[2..]| ensures t[2..][i] == '/' || Permitted(t[2..][i]) {
              assert t[2..][i] == t[i + 2];
            }
            forall i | 0 <= i < |t[2..]| - 1 ensures t[2..][i] == '/' ==> t[2..][i + 1] != '/' {
              assert t[2..][i] == t[i + 2] && t[2..][i + 1] == t[i + 3];
            }
          }
        }
        if Units(t) {
          assert UnitsShape(t[2..]);
          forall i | 0 <= i < |t| - 1 ensures t[i] == '/' ==> t[i + 1] != '/' {
            if i >= 2 {
              assert t[2..][i - 2] == t[i] && t[2..][i - 1] == t[i + 1];
            }
          }
          forall i | 0 <= i < |t| ensures t[i] == '/' || Permitted(t[i]) {
            if i >= 2 {
              assert t[2..][i - 2] == t[i];
            }
          }
        }
      }
    } else {
      if |t| > 1 {
        UnitsIsShape(t[1..]);
        if UnitsShape(t) {
          assert UnitsShape(t[1..]) by {
            forall i | 0 <= i < |t[1..]| ensures t[1..][i] == '/' || Permitted(t[1..][i]) {
              assert t[1..][i] == t[i + 1];
            }
            forall i | 0 <= i < |t[1..]| - 1 ensures t[1..][i] == '/' ==> t[1..][i + 1] != '/' {
              assert t[1..][i] == t[i + 1] && t[1..][i + 1] == t[i + 2];
            }
          }
        }
        if Units(t) {
          assert UnitsShape(t[1..]);
          forall i | 0 <= i < |t| - 1 ensures t[i] == '/' ==> t[i + 1] != '/' {
            if i >= 1 {
              assert t[1..][i - 1] == t[i] && t[1..][i] == t[i + 1];
            }
          }
          forall i | 0 <= i < |t| ensures t[i] == '/' || Permitted(t[i]) {
            if i >= 1 {
              assert t[1..][i - 1] == t[i];
            }
          }
        }
      }
    }
  }

  /** A run of units never holds one of the characters the class excludes, other than `/` and `:`. */
  lemma UnitsRefuseExcluded(t: string, i: nat)
    requires i < |t| && t[i] in "?*;{}\\"
    ensures !Units(t)
  {
    UnitsIsShape(t);
  }

  /** A string carrying the `file://` prefix is not itself a run of units, because of its `:`. */
  lemma FileUrlIsNotUnits(s: string)
    requires StartsWith(s, "file://")
    ensures !Units(s)
  {
    assert s[4] == "file://"[4] == ':';
    UnitsIsShape(s);
  }

  /** None of the `file://` prefix's characters is one the class excludes outright. */
  lemma PrefixCharsNotExcluded(s: string)
    requires StartsWith(s, "file://")
    ensures forall j :: 0 <= j < 7 ==> s[j] !in "?*;{}\\"
  {
    forall j | 0 <= j < 7 ensures s[j] !in "?*;{}\\" {
      assert s[j] == s[..7][j];
    }
  }

  /** The pattern rejects the empty string and anything ending in `/`. */
  lemma FileNameRejectsEmptyAndTrailingSlash(s: string)
    ensures s == "" ==> !MatchesFileName(s)
    ensures |s| > 0 && s[|s| - 1] == '/' ==> !MatchesFileName(s)
  {
    UnitsIsShape(s);
    if StartsWith(s, "file://") {
      UnitsIsShape(s[7..]);
      if |s| > 7 {
        assert s[7..][|s| - 8] == s[|s| - 1];
      }
    }
  }

  /** The pattern rejects any string holding one of `? * ; { } \`. */
  lemma FileNameRejectsExcluded(s: string, i: nat)
    requires i < |s| && s[i] in "?*;{}\\"
    ensures !MatchesFileName(s)
  {
    UnitsRefuseExcluded(s, i);
    if StartsWith(s, "file://") {
      PrefixCharsNotExcluded(s);
      assert s[7..][i - 7] == s[i];
      UnitsRefuseExcluded(s[7..], i - 7);
    }
  }

  /** An accepted name is a run of units after the `file://` prefix if it has one, and as a whole
      otherwise; so a `:` or a `//` is admitted only as part of the prefix. */
  lemma FileNameShape(s: string)
    ensures MatchesFileName(s) && StartsWith(s, "file://") ==> UnitsShape(s[7..])
    ensures MatchesFileName(s) && !StartsWith(s, "file://") ==> UnitsShape(s)
  {
    if StartsWith(s, "file://") {
      FileUrlIsNotUnits(s);
      UnitsIsShape(s[7..]);
    } else {
      UnitsIsShape(s);
    }
  }

  /** A name made only of permitted characters is accepted, alone or as the absolute path of a
      `file://` URL. */
  lemma PermittedNamesMatch(name: string)
    requires |name| > 0 && forall i :: 0 <= i < |name| ==> Permitted(name[i])
    ensures MatchesFileName(name)
    ensures MatchesFileName("file:///" + name)
  {
    UnitsIsShape(name);
    var url := "file:///" + name;
    assert url[..7] == "file://";
    assert url[7..] == "/" + name;
    UnitsIsShape("/" + name);
    assert forall i :: 1 <= i < |"/" + name| ==> ("/" + name)[i] == name[i - 1];
  }

  /** `provides(fileNamePattern)`: one test per candidate, preserving order. */
  function LoaderProvides(potentials: seq<string>): (r: seq<bool>)
    ensures |r| == |potentials|
    ensures forall i :: 0 <= i < |r| ==> (r[i] <==> MatchesFileName(potentials[i]))
  {
    seq(|potentials|, i requires 0 <= i < |potentials| => MatchesFileName(potentials[i]))
  }

  const FileLoaderModule := "./loaders/file_loader:FileLoader"

  /** `defaultLoaders`: the file loader alone. */
  function DefaultLoaders(): (r: seq<Provider>)
    ensures |r| == 1 && r[0].moduleId == FileLoaderModule
    ensures forall ps :: r[0].claims(ps) == LoaderProvides(ps)
  {
    [Provider(LoaderProvides, FileLoaderModule)]
  }
}
