/** Node's POSIX `path` helpers as plain string functions (no `..` normalisation, no cwd lookup). */
module Posix {
  import opened Wrappers
  import opened Strings

  /** Drops every trailing `/`. */
  function TrimSlashes(p: string): (r: string)
    ensures |r| <= |p| && r == p[..|r|]
    ensures |r| == 0 || r[|r| - 1] != '/'
  {
    if |p| > 0 && p[|p| - 1] == '/' then TrimSlashes(p[..|p| - 1]) else p
  }

  /** `path.basename`: the last segment, ignoring trailing separators. */
  function Basename(p: string): (r: string)
    ensures '/' !in r
  {
    var q := TrimSlashes(p);
    match LastIndexOf(q, '/')
    case None => q
    case Some(i) => q[i + 1..]
  }

  /** `path.dirname`: everything before the last segment; `.` when there is none. */
  function Dirname(p: string): (r: string)
    ensures r != ""
  {
    var q := TrimSlashes(p);
    if q == "" then (if StartsWith(p, "/") then "/" else ".")
    else
      match LastIndexOf(q, '/')
      case None => "."
      case Some(i) =>
        var d := TrimSlashes(q[..i]);
        if d == "" then "/" else d
  }

  /** `path.join` of two segments. */
  function Join(a: string, b: string): (r: string)
    ensures a != "" || b != "" ==> r != ""
  {
    if a == "" then b
    else if b == "" then a
    else if a[|a| - 1] == '/' then a + b
    else a + "/" + b
  }

  predicate IsAbsolute(p: string) {
    StartsWith(p, "/")
  }

  /** `path.resolve` relative to the working directory `cwd`. */
  function Resolve(cwd: string, p: string): (r: string)
    ensures IsAbsolute(p) ==> r == p
    ensures IsAbsolute(cwd) ==> IsAbsolute(r)
  {
    if IsAbsolute(p) then p else Join(cwd, p)
  }

  /** `path.extname`: the basename's suffix from its last `.`, unless that dot starts the
      basename or the basename is `..`. */
  function Extname(p: string): (r: string)
    ensures r == "" || (r[0] == '.' && '.' !in r[1..])
    ensures r != "" ==> exists i | 0 < i < |Basename(p)| :: r == Basename(p)[i..]
  {
    var base := Basename(p);
    match LastIndexOf(base, '.')
    case None => ""
    case Some(i) => if i == 0 || base == ".." then "" else base[i..]
  }

  /** A name without `/` is its own basename. */
  lemma BasenameOfPlain(p: string)
    requires '/' !in p
    ensures Basename(p) == p
  {
    assert TrimSlashes(p) == p;
  }

  /** A plain name `stem.ext` with a non-empty dot-free stem has extension `.ext`. */
  lemma ExtnameOfPlain(stem: string, ext: string)
    requires '/' !in stem + "." + ext
    requires '.' !in stem && '.' !in ext && |stem| > 0
    ensures Extname(stem + "." + ext) == "." + ext
  {
    var name := stem + "." + ext;
    BasenameOfPlain(name);
    assert name[0] == stem[0] != '.';
    assert name[|stem|] == '.';
    assert name[|stem| + 1..] == ext;
    LastIndexOfAt(name, '.', |stem|);
    assert name[|stem|..] == "." + ext;
  }

  /** A plain name without a dot has no extension. */
  lemma ExtnameWithoutDot(p: string)
    requires '/' !in p && '.' !in p
    ensures Extname(p) == ""
  {
    BasenameOfPlain(p);
  }

  /** The directory of an absolute path is absolute. */
  lemma DirnameOfAbsolute(p: string)
    requires IsAbsolute(p)
    ensures IsAbsolute(Dirname(p))
  {
    var q := TrimSlashes(p);
    if q != "" {
      assert q[0] == p[0] == '/';
      var i := LastIndexOf(q, '/');
      assert i.Some?;
      var d := TrimSlashes(q[..i.value]);
      if d != "" {
        assert d[0] == q[0];
      }
    }
  }
}
