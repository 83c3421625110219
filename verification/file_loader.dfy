/** Models src/loaders/file_loader.ts over an abstract file system: option defaults, file discovery
    in exact and prefix mode, reading, the change handler and `load`. */
module FileLoader {
  import opened Wrappers
  import opened Strings
  import opened Errors
  import opened Loader
  import Posix

  /** What the loader sees of the file system: the working directory (absolute, as the process's
      is), the entries of every readable directory in listing order, the paths that exist, and the
      text of every readable file. */
  datatype FileSystem = FileSystem(
    cwd: string,
    listing: map<string, seq<string>>,
    present: set<string>,
    contents: map<string, string>)

  /** The `files` option; an absent `watch` is falsy. */
  datatype FilesOptions = FilesOptions(watch: bool, searchPaths: Option<seq<string>>)

  /** The constructor: a caller-supplied `files` object replaces the defaults wholesale; without one
      the loader watches and searches the standard paths. */
  function ConstructFiles(supplied: Option<FilesOptions>, standard: seq<string>): (f: FilesOptions)
    ensures supplied.Some? ==> f == supplied.value
    ensures supplied.None? ==> f.watch && f.searchPaths == Some(standard)
  {
    supplied.GetOr(FilesOptions(true, Some(standard)))
  }

  /** `this.options.files?.searchPaths || pathing.get()`: an explicit list, even an empty one, is used as is. */
  function SearchPaths(files: FilesOptions, standard: seq<string>): seq<string> {
    files.searchPaths.GetOr(standard)
  }

  /** The entries of `entries` that start with `fileName`, in listing order. */
  function StartingWith(entries: seq<string>, fileName: string): (r: seq<string>)
    ensures |r| <= |entries|
    ensures forall m :: m in r <==> m in entries && StartsWith(m, fileName)
  {
    if |entries| == 0 then []
    else
      var rest := StartingWith(entries[1..], fileName);
      assert entries == [entries[0]] + entries[1..];
      if StartsWith(entries[0], fileName) then [entries[0]] + rest else rest
  }

  /** The filter keeps the listing's order and multiplicity: it works entry by entry, keeping an
      entry exactly when it starts with the name. */
  lemma {:induction false} StartingWithAppend(a: seq<string>, b: seq<string>, fileName: string)
    ensures StartingWith(a + b, fileName) == StartingWith(a, fileName) + StartingWith(b, fileName)
    ensures |a| == 1 ==> StartingWith(a, fileName) == (if StartsWith(a[0], fileName) then a else [])
    decreases |a|
  {
    if |a| == 0 {
      assert a + b == b;
    } else {
      assert (a + b)[0] == a[0];
      assert (a + b)[1..] == a[1..] + b;
      StartingWithAppend(a[1..], b, fileName);
    }
  }

  /** `findByPrefix`: the directory's entries starting with `fileName`, in listing order; an
      unreadable directory yields none. */
  function FindByPrefix(fs: FileSystem, directory: string, fileName: string): (r: seq<string>)
    ensures directory !in fs.listing ==> r == []
    ensures directory in fs.listing ==> r == StartingWith(fs.listing[directory], fileName)
    ensures forall m :: m in r <==> directory in fs.listing && m in fs.listing[directory] && StartsWith(m, fileName)
  {
    if directory in fs.listing then StartingWith(fs.listing[directory], fileName) else []
  }

  /** The absolute form of a search directory. */
  function AbsoluteDirectory(fs: FileSystem, directory: string): string {
    Posix.Resolve(fs.cwd, directory)
  }

  /** One directory's contribution in prefix mode: each match joined to the absolute directory. */
  function DirectoryMatches(fs: FileSystem, directory: string, fileName: string): (r: seq<string>)
    ensures var found := FindByPrefix(fs, AbsoluteDirectory(fs, directory), fileName);
            |r| == |found| && forall i :: 0 <= i < |r| ==> r[i] == Posix.Join(AbsoluteDirectory(fs, directory), found[i])
  {
    var abs := AbsoluteDirectory(fs, directory);
    var found := FindByPrefix(fs, abs, fileName);
    seq(|found|, i requires 0 <= i < |found| => Posix.Join(abs, found[i]))
  }

  /** The prefix-mode matches of every directory, flattened in search-path order. */
  function PrefixMatches(fs: FileSystem, paths: seq<string>, fileName: string): seq<string>
    decreases |paths|
  {
    if |paths| == 0 then [] else DirectoryMatches(fs, paths[0], fileName) + PrefixMatches(fs, paths[1..], fileName)
  }

  /** `find(name, true)`: the non-empty prefix matches, or the not-found error when there are none. */
  function FindPrefix(fs: FileSystem, paths: seq<string>, fileName: string): (r: Result<seq<string>, Error>)
    ensures r.Ok? <==> NonEmpty(PrefixMatches(fs, paths, fileName)) != []
    ensures r.Ok? ==> r.value == NonEmpty(PrefixMatches(fs, paths, fileName))
    ensures r.Err? ==> r.error == NoFilesFound(fileName)
    ensures |paths| == 0 ==> r == Err(NoFilesFound(fileName))
  {
    var matches := NonEmpty(PrefixMatches(fs, paths, fileName));
    if |matches| > 0 then Ok(matches) else Err(NoFilesFound(fileName))
  }

  /** The path exact mode probes in one directory. */
  function Candidate(fs: FileSystem, directory: string, fileName: string): string {
    Posix.Resolve(fs.cwd, Posix.Join(directory, fileName))
  }

  /** The first probe, in search-path order, that exists. */
  function FirstExisting(fs: FileSystem, paths: seq<string>, fileName: string): Option<string>
    decreases |paths|
  {
    if |paths| == 0 then None
    else if Candidate(fs, paths[0], fileName) in fs.present then Some(Candidate(fs, paths[0], fileName))
    else FirstExisting(fs, paths[1..], fileName)
  }

  /** The first existing probe is an existing probe with no existing probe before it, and there is
      none exactly when no probe exists. */
  lemma {:induction false} FirstExistingSpec(fs: FileSystem, paths: seq<string>, fileName: string)
    ensures var r := FirstExisting(fs, paths, fileName);
            && (r.None? <==> forall i :: 0 <= i < |paths| ==> Candidate(fs, paths[i], fileName) !in fs.present)
            && (r.Some? ==> exists i :: 0 <= i < |paths| && r.value == Candidate(fs, paths[i], fileName)
                              && r.value in fs.present
                              && forall j :: 0 <= j < i ==> Candidate(fs, paths[j], fileName) !in fs.present)
    decreases |paths|
  {
    if |paths| > 0 && Candidate(fs, paths[0], fileName) !in fs.present {
      FirstExistingSpec(fs, paths[1..], fileName);
      var r := FirstExisting(fs, paths[1..], fileName);
      if r.Some? {
        var i :| 0 <= i < |paths[1..]| && r.value == Candidate(fs, paths[1..][i], fileName)
                 && r.value in fs.present
                 && forall j :: 0 <= j < i ==> Candidate(fs, paths[1..][j], fileName) !in fs.present;
        forall j | 0 <= j < i + 1 ensures Candidate(fs, paths[j], fileName) !in fs.present {
          if j > 0 {
            assert paths[j] == paths[1..][j - 1];
          }
        }
        assert paths[i + 1] == paths[1..][i];
      } else {
        forall i | 0 <= i < |paths| ensures Candidate(fs, paths[i], fileName) !in fs.present {
          if i > 0 {
            assert paths[i] == paths[1..][i - 1];
          }
        }
      }
    }
  }

  /** `find(name, false)`: the highest-priority probe that exists, or the not-found error; a
      lower-priority hit is never consulted. */
  function FindExact(fs: FileSystem, paths: seq<string>, fileName: string): (r: Result<string, Error>)
    ensures r.Ok? ==> exists i :: 0 <= i < |paths| && r.value == Candidate(fs, paths[i], fileName)
                        && r.value in fs.present
                        && forall j :: 0 <= j < i ==> Candidate(fs, paths[j], fileName) !in fs.present
    ensures (forall i :: 0 <= i < |paths| ==> Candidate(fs, paths[i], fileName) !in fs.present) ==> r.Err?
    ensures Posix.IsAbsolute(fs.cwd) ==>
              (r.Ok? <==> exists i :: 0 <= i < |paths| && Candidate(fs, paths[i], fileName) in fs.present)
    ensures r.Err? ==> r.error == NoFilesFound(fileName)
    ensures |paths| == 0 ==> r == Err(NoFilesFound(fileName))
  {
    FirstExistingSpec(fs, paths, fileName);
    match FirstExisting(fs, paths, fileName)
    case Some(p) => if p != "" then Ok(p) else Err(NoFilesFound(fileName))
    case None => Err(NoFilesFound(fileName))
  }

  /** `get`: the file's text with its path as the source, or the read error. */
  function Get(fs: FileSystem, filename: string): (r: Result<LoadResult, Error>)
    ensures r.Ok? <==> filename in fs.contents
    ensures r.Ok? ==> r.value.source == filename && r.value.content == fs.contents[filename]
    ensures r.Err? ==> r.error == ReadFailed(filename)
  {
    if filename in fs.contents then Ok(LoadResult(filename, fs.contents[filename])) else Err(ReadFailed(filename))
  }

  /** `path.extname(f).slice(1)`: the extension without its dot, empty when there is none. */
  function ExtensionOf(f: string): (r: string)
    ensures '.' !in r
  {
    var e := Posix.Extname(f);
    if e == "" then "" else e[1..]
  }

  /** `formatterSuggested`: nothing without an identifier; the text after the basename's last `.`
      when there is one; otherwise the extension of the first prefix match, failing when there is none. */
  function FormatterSuggested(fs: FileSystem, files: FilesOptions, standard: seq<string>, identifier: Option<string>)
    : (r: Result<Option<string>, Error>)
    ensures identifier.None? || identifier == Some("") ==> r == Ok(None)
    ensures identifier.Some? && identifier.value != "" && '.' in Posix.Basename(identifier.value) ==>
              r.Ok? && r.value.Some? && '.' !in r.value.value
              && exists i :: 0 <= i < |Posix.Basename(identifier.value)| && Posix.Basename(identifier.value)[i] == '.'
                             && r.value.value == Posix.Basename(identifier.value)[i + 1..]
    ensures identifier.Some? && identifier.value != "" && '.' !in Posix.Basename(identifier.value) ==>
              var found := FindPrefix(fs, SearchPaths(files, standard), identifier.value);
              && (r.Err? <==> found.Err?)
              && (r.Err? ==> r.error == NoFilesFound(identifier.value))
              && (r.Ok? ==> r.value == Some(ExtensionOf(found.value[0])))
  {
    match identifier
    case None => Ok(None)
    case Some(id) =>
      if id == "" then Ok(None)
      else
        var baseName := Posix.Basename(id);
        match LastIndexOf(baseName, '.')
        case Some(dot) => Ok(Some(baseName[dot + 1..]))
        case None =>
          var found :- FindPrefix(fs, SearchPaths(files, standard), id);
          Ok(Some(ExtensionOf(found[0])))
  }

  /** What `load` resolves to: the read result and the file it starts watching, if any. */
  datatype Loaded = Loaded(result: LoadResult, watched: Option<string>)

  /** The file `load` reads: the first prefix match when the basename has no `.`, else the exact match. */
  function Resolved(fs: FileSystem, files: FilesOptions, standard: seq<string>, requested: string)
    : (r: Result<string, Error>)
    ensures '.' !in Posix.Basename(requested) ==>
              var found := FindPrefix(fs, SearchPaths(files, standard), requested);
              (r.Ok? <==> found.Ok?) && (r.Ok? ==> r.value == found.value[0]) && (r.Err? ==> r == Err(found.error))
    ensures '.' in Posix.Basename(requested) ==> r == FindExact(fs, SearchPaths(files, standard), requested)
  {
    if LastIndexOf(Posix.Basename(requested), '.').None? then
      var found :- FindPrefix(fs, SearchPaths(files, standard), requested);
      Ok(found[0])
    else
      FindExact(fs, SearchPaths(files, standard), requested)
  }

  /** `load`: read the resolved file and watch it when `files.watch` is truthy; a discovery or
      read failure is passed on as is. */
  function Load(fs: FileSystem, files: FilesOptions, standard: seq<string>, requested: string): (r: Result<Loaded, Error>)
    ensures var path := Resolved(fs, files, standard, requested);
            && (path.Err? ==> r == Err(path.error))
            && (path.Ok? && path.value !in fs.contents ==> r == Err(ReadFailed(path.value)))
            && (path.Ok? && path.value in fs.contents ==>
                  r == Ok(Loaded(LoadResult(path.value, fs.contents[path.value]),
                                 if files.watch then Some(path.value) else None)))
  {
    match Resolved(fs, files, standard, requested)
    case Err(e) => Err(e)
    case Ok(filename) =>
      match Get(fs, filename)
      case Err(e) => Err(e)
      case Ok(result) => Ok(Loaded(result, if files.watch then Some(filename) else None))
  }

  /** The handler installed on a watched file: re-emit the notification, then report the re-read
      through `updated`. */
  function ChangeHandler(fs: FileSystem, filename: string, event: string): (r: seq<LoaderEvent>)
    ensures |r| == 2 && r[0] == Changed(event, filename)
    ensures filename in fs.contents ==> r[1] == Updated(Some(LoadResult(filename, fs.contents[filename])))
    ensures filename !in fs.contents ==> r[1] == UpdateFailed(ReadFailed(filename))
  {
    [Changed(event, filename)]
      + match Get(fs, filename)
        case Ok(result) => UpdatedEvents(None, Some(result))
        case Err(e) => UpdatedEvents(Some(e), None)
  }

  /** The file loader as the load pipeline sees it: a formatter is required (inherited), the
      suggestion and the load are the ones above. */
  function FileBehaviour(fs: FileSystem, files: FilesOptions, standard: seq<string>, identifier: string): (b: Behaviour)
    ensures b.formatterRequired
    ensures b.formatterSuggested == FormatterSuggested(fs, files, standard, Some(identifier))
    ensures b.load.Ok? <==> Load(fs, files, standard, identifier).Ok?
    ensures b.load.Ok? ==> b.load.value == Load(fs, files, standard, identifier).value.result
  {
    var loaded := Load(fs, files, standard, identifier);
    Behaviour(true, FormatterSuggested(fs, files, standard, Some(identifier)),
              if loaded.Ok? then Ok(loaded.value.result) else Err(loaded.error))
  }

  /** Prefix matches are grouped by search path: an earlier directory's matches all come first. */
  lemma {:induction false} PrefixMatchesAppend(fs: FileSystem, p: seq<string>, q: seq<string>, fileName: string)
    ensures PrefixMatches(fs, p + q, fileName) == PrefixMatches(fs, p, fileName) + PrefixMatches(fs, q, fileName)
    decreases |p|
  {
    if |p| == 0 {
      assert p + q == q;
    } else {
      assert (p + q)[1..] == p[1..] + q;
      assert (p + q)[0] == p[0];
      PrefixMatchesAppend(fs, p[1..], q, fileName);
    }
  }

  /** A prefix match is exactly an entry, starting with the name, of a readable search directory,
      joined to that directory's absolute path. */
  lemma {:induction false} PrefixMatchMembers(fs: FileSystem, paths: seq<string>, fileName: string, x: string)
    ensures x in PrefixMatches(fs, paths, fileName) <==>
            exists i, m :: 0 <= i < |paths| && AbsoluteDirectory(fs, paths[i]) in fs.listing
                           && m in fs.listing[AbsoluteDirectory(fs, paths[i])] && StartsWith(m, fileName)
                           && x == Posix.Join(AbsoluteDirectory(fs, paths[i]), m)
    decreases |paths|
  {
    if |paths| > 0 {
      PrefixMatchMembers(fs, paths[1..], fileName, x);
      var abs := AbsoluteDirectory(fs, paths[0]);
      var here := DirectoryMatches(fs, paths[0], fileName);
      var found := FindByPrefix(fs, abs, fileName);
      if x in here {
        var k :| 0 <= k < |here| && here[k] == x;
        assert found[k] in found;
      }
      if exists i, m :: 0 <= i < |paths| && AbsoluteDirectory(fs, paths[i]) in fs.listing
                        && m in fs.listing[AbsoluteDirectory(fs, paths[i])] && StartsWith(m, fileName)
                        && x == Posix.Join(AbsoluteDirectory(fs, paths[i]), m) {
        var i, m :| 0 <= i < |paths| && AbsoluteDirectory(fs, paths[i]) in fs.listing
                    && m in fs.listing[AbsoluteDirectory(fs, paths[i])] && StartsWith(m, fileName)
                    && x == Posix.Join(AbsoluteDirectory(fs, paths[i]), m);
        if i == 0 {
          assert m in found;
          var k :| 0 <= k < |found| && found[k] == m;
          assert here[k] == x;
        } else {
          assert paths[i] == paths[1..][i - 1];
        }
      }
      if x in PrefixMatches(fs, paths[1..], fileName) {
        var i, m :| 0 <= i < |paths[1..]| && AbsoluteDirectory(fs, paths[1..][i]) in fs.listing
                    && m in fs.listing[AbsoluteDirectory(fs, paths[1..][i])] && StartsWith(m, fileName)
                    && x == Posix.Join(AbsoluteDirectory(fs, paths[1..][i]), m);
        assert paths[1..][i] == paths[i + 1];
      }
    }
  }

  /** A search directory that cannot be listed contributes nothing and disturbs nothing else. */
  lemma UnreadableDirectoryIgnored(fs: FileSystem, p: seq<string>, d: string, q: seq<string>, fileName: string)
    requires AbsoluteDirectory(fs, d) !in fs.listing
    ensures PrefixMatches(fs, p + [d] + q, fileName) == PrefixMatches(fs, p + q, fileName)
  {
    PrefixMatchesAppend(fs, p + [d], q, fileName);
    PrefixMatchesAppend(fs, p, [d], fileName);
    PrefixMatchesAppend(fs, p, q, fileName);
    assert PrefixMatches(fs, [d], fileName) == DirectoryMatches(fs, d, fileName) + PrefixMatches(fs, [], fileName);
  }

  /** Appending lower-priority search paths never changes an existing exact hit. */
  lemma {:induction false} FirstExistingAppend(fs: FileSystem, p: seq<string>, q: seq<string>, fileName: string)
    requires FirstExisting(fs, p, fileName).Some?
    ensures FirstExisting(fs, p + q, fileName) == FirstExisting(fs, p, fileName)
    decreases |p|
  {
    assert (p + q)[0] == p[0];
    if Candidate(fs, p[0], fileName) !in fs.present {
      assert (p + q)[1..] == p[1..] + q;
      FirstExistingAppend(fs, p[1..], q, fileName);
    }
  }

  /** Exact mode takes the highest-priority hit: more search paths after it change nothing. */
  lemma FindExactIgnoresLater(fs: FileSystem, p: seq<string>, q: seq<string>, fileName: string)
    requires FindExact(fs, p, fileName).Ok?
    ensures FindExact(fs, p + q, fileName) == FindExact(fs, p, fileName)
  {
    FirstExistingAppend(fs, p, q, fileName);
  }

  /** For an ordinary file name the suggestion is what `path.extname` gives, without its dot. */
  lemma SuggestionAgreesWithExtname(fs: FileSystem, files: FilesOptions, standard: seq<string>, id: string)
    requires id != "" && '.' in Posix.Basename(id) && Posix.Basename(id)[0] != '.'
    ensures FormatterSuggested(fs, files, standard, Some(id)) == Ok(Some(ExtensionOf(id)))
  {
    var base := Posix.Basename(id);
    var dot := LastIndexOf(base, '.');
    assert dot.Some? && dot.value > 0;
    assert base != ".." by { assert base[0] != '.'; }
    assert Posix.Extname(id) == base[dot.value..];
    assert Posix.Extname(id)[1..] == base[dot.value + 1..];
  }

  /** ... but a dot file such as `.json`, which has no extension for `path.extname`, still
      suggests the text after its dot. */
  lemma DotFileSuggestion(fs: FileSystem, files: FilesOptions, standard: seq<string>, ext: string)
    requires ext != "" && '.' !in ext && '/' !in ext
    ensures FormatterSuggested(fs, files, standard, Some("." + ext)) == Ok(Some(ext))
    ensures Posix.Extname("." + ext) == ""
  {
    var id := "." + ext;
    assert '/' !in id;
    Posix.BasenameOfPlain(id);
    LastIndexOfAt(id, '.', 0);
    assert id[1..] == ext;
  }

  /** A loader built without a `files` option watches every file it loads. */
  lemma DefaultLoaderWatches(fs: FileSystem, standard: seq<string>, requested: string)
    requires Load(fs, ConstructFiles(None, standard), standard, requested).Ok?
    ensures var loaded := Load(fs, ConstructFiles(None, standard), standard, requested).value;
            loaded.watched == Some(loaded.result.source)
  {
  }
}
