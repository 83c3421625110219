/** Models src/index.ts: provider selection, formatting a loaded text into a configurator, the
    `load` pipeline, and the events raised when the loader later reports updates. */
module Prefer {
  import opened Wrappers
  import opened Values
  import opened Errors
  import opened Providers
  import opened Loader
  import Configurator
  import FormatterDefaults
  import LoaderDefaults
  import FileLoader

  /** JavaScript truthiness of an optional string. */
  predicate Given(s: Option<string>) {
    s.Some? && s.value != ""
  }

  /** The candidates handed to every provider: the suggestion when truthy, else the identifier. */
  function FilterBy(kind: EntityKind, identifier: Option<string>, suggestion: Option<string>): (r: Result<seq<string>, Error>)
    ensures Given(suggestion) ==> r == Ok([suggestion.value])
    ensures !Given(suggestion) && Given(identifier) ==> r == Ok([identifier.value])
    ensures !Given(suggestion) && !Given(identifier) ==> r == Err(NoIdentifierFor(kind))
  {
    if Given(suggestion) then Ok([suggestion.value])
    else if Given(identifier) then Ok([identifier.value])
    else Err(NoIdentifierFor(kind))
  }

  /** A provider matches when it answers `true` for some candidate. */
  predicate Claims(p: Provider, filterBy: seq<string>) {
    true in p.claims(filterBy)
  }

  /** The position of the first matching provider. */
  function FirstClaiming(providers: seq<Provider>, filterBy: seq<string>): (r: Option<nat>)
    ensures r.None? <==> forall i :: 0 <= i < |providers| ==> !Claims(providers[i], filterBy)
    ensures r.Some? ==> r.value < |providers| && Claims(providers[r.value], filterBy)
                        && forall j :: 0 <= j < r.value ==> !Claims(providers[j], filterBy)
    decreases |providers|
  {
    if |providers| == 0 then None
    else if Claims(providers[0], filterBy) then Some(0)
    else
      match FirstClaiming(providers[1..], filterBy)
      case None => None
      case Some(i) => Some(i + 1)
  }

  /** The text of `options.identifier` inside an error message. */
  function Shown(identifier: Option<string>): IdentifierText {
    match identifier
    case Some(s) => Named(s)
    case None => Missing
  }

  /** `getEntity`: the module reference of the first provider matching the candidates. The
      not-found error names `options.identifier`, even when the suggestion was matched. */
  function GetEntity(kind: EntityKind, identifier: Option<string>, providers: seq<Provider>, suggestion: Option<string>)
    : (r: Result<string, Error>)
    ensures FilterBy(kind, identifier, suggestion).Err? ==> r == Err(NoIdentifierFor(kind))
    ensures FilterBy(kind, identifier, suggestion).Ok? ==>
              var filterBy := FilterBy(kind, identifier, suggestion).value;
              && ((forall i :: 0 <= i < |providers| ==> !Claims(providers[i], filterBy))
                    <==> r == Err(NoProviderFor(kind, Shown(identifier))))
              && (r.Ok? ==> exists i :: 0 <= i < |providers| && r.value == providers[i].moduleId
                              && Claims(providers[i], filterBy)
                              && forall j :: 0 <= j < i ==> !Claims(providers[j], filterBy))
  {
    var filterBy :- FilterBy(kind, identifier, suggestion);
    match FirstClaiming(providers, filterBy)
    case None => Err(NoProviderFor(kind, Shown(identifier)))
    case Some(i) => Ok(providers[i].moduleId)
  }

  /** The events Prefer itself emits. */
  datatype PreferEvent = ConfigUpdated(config: Configurator.Configurator) | ConfigError(error: Error)

  /** A formatter's parser: text in, configuration tree out. */
  type Parser = string -> Result<Value, Error>

  /** What `format` produces: the configurator, and the events it emitted. */
  datatype Formatted = Formatted(result: Result<Configurator.Configurator, Error>, events: seq<PreferEvent>)

  /** `format(formatter)(updates, isUpdate)`: parse the content and wrap it, with the source and
      content as the configurator's state; announce it only when `isUpdate`. */
  function Format(parse: Parser, update: LoadResult, isUpdate: bool): (r: Formatted)
    ensures parse(update.content).Err? ==> r == Formatted(Err(parse(update.content).error), [])
    ensures parse(update.content).Ok? ==>
              && r.result.Ok?
              && r.result.value.context == parse(update.content).value
              && r.result.value.state.Keys == {"source", "content"}
              && r.result.value.state["source"] == update.source
              && r.result.value.state["content"] == update.content
              && r.events == (if isUpdate then [ConfigUpdated(r.result.value)] else [])
  {
    match parse(update.content)
    case Err(e) => Formatted(Err(e), [])
    case Ok(context) =>
      var config := Configurator.Configurator(context, map["source" := update.source, "content" := update.content]);
      Formatted(Ok(config), if isUpdate then [ConfigUpdated(config)] else [])
  }

  /** What one loader event makes Prefer emit once a load has registered its listener: an
      `updated` is formatted as an update, which announces it, and a failure to format is reported
      as `error`; Prefer does not listen to anything else. */
  function React(parse: Parser, e: LoaderEvent): (r: seq<PreferEvent>)
    ensures e.Updated? && e.result.Some? && parse(e.result.value.content).Ok? ==>
              |r| == 1 && r[0].ConfigUpdated?
              && r[0].config.context == parse(e.result.value.content).value
              && r[0].config.state == map["source" := e.result.value.source, "content" := e.result.value.content]
    ensures e.Updated? && e.result.Some? && parse(e.result.value.content).Err? ==>
              r == [ConfigError(parse(e.result.value.content).error)]
    ensures e.Updated? && e.result.None? ==> r == [ConfigError(MissingUpdate)]
    ensures !e.Updated? ==> r == []
  {
    match e
    case Updated(Some(update)) =>
      var formatted := Format(parse, update, true);
      (match formatted.result
       case Ok(_) => formatted.events
       case Err(err) => [ConfigError(err)])
    case Updated(None) => [ConfigError(MissingUpdate)]
    case UpdateFailed(_) => []
    case Changed(_, _) => []
  }

  /** Prefer's reactions to a run of loader events, in order. */
  function Reactions(parse: Parser, events: seq<LoaderEvent>): seq<PreferEvent>
    decreases |events|
  {
    if |events| == 0 then [] else React(parse, events[0]) + Reactions(parse, events[1..])
  }

  /** The options a `load` call carries. */
  datatype Options = Options(identifier: Option<string>, loaders: Option<seq<Provider>>, formatters: Option<seq<Provider>>)

  /** The call shapes of `load`: an identifier with optional options (also the shape with a
      callback in second place, which starts from empty options), or options alone. */
  datatype LoadCall = ByIdentifier(identifier: string, given: Option<Options>) | ByOptions(options: Options)

  /** The options after normalisation: an identifier and both registries are settled. */
  datatype Settled = Settled(identifier: string, loaders: seq<Provider>, formatters: seq<Provider>)

  /** Argument normalisation: a truthy identifier argument overrides `options.identifier`; with no
      identifier left the call fails; absent registries default to the built-in tables. */
  function Normalise(call: LoadCall): (r: Result<Settled, Error>)
    ensures call.ByIdentifier? && call.identifier != "" ==> r.Ok? && r.value.identifier == call.identifier
    ensures r.Err? <==> !Given(Normalised(call).identifier)
    ensures r.Err? ==> r.error == NoConfigurationIdentifier
    ensures r.Ok? ==> r.value.identifier == Normalised(call).identifier.value
    ensures r.Ok? ==> r.value.loaders == Normalised(call).loaders.GetOr(LoaderDefaults.DefaultLoaders())
    ensures r.Ok? ==> r.value.formatters == Normalised(call).formatters.GetOr(FormatterDefaults.DefaultFormatters())
  {
    var options := Normalised(call);
    if !Given(options.identifier) then Err(NoConfigurationIdentifier)
    else Ok(Settled(options.identifier.value,
                    options.loaders.GetOr(LoaderDefaults.DefaultLoaders()),
                    options.formatters.GetOr(FormatterDefaults.DefaultFormatters())))
  }

  /** The options object once the identifier argument has been written into it. */
  function Normalised(call: LoadCall): (o: Options)
    ensures call.ByOptions? ==> o == call.options
    ensures call.ByIdentifier? && call.identifier != "" ==> o.identifier == Some(call.identifier)
    ensures call.ByIdentifier? && call.identifier == "" ==> o == call.given.GetOr(Options(None, None, None))
    ensures call.ByIdentifier? ==>
              && o.loaders == call.given.GetOr(Options(None, None, None)).loaders
              && o.formatters == call.given.GetOr(Options(None, None, None)).formatters
  {
    match call
    case ByOptions(options) => options
    case ByIdentifier(identifier, options) =>
      var base := options.GetOr(Options(None, None, None));
      if identifier != "" then base.(identifier := Some(identifier)) else base
  }

  /** How far the pipeline got: its result, the events it emitted, and the formatter whose parser
      handles later updates once the listener is registered (after the formatter is chosen, before
      loading). */
  datatype Outcome = Outcome(result: Result<Configurator.Configurator, Error>, events: seq<PreferEvent>,
                             listener: Option<string>)

  /** `load`: normalise, pick the loader, require a formatter, ask for a suggestion, pick the
      formatter, load, and format without announcing an update. The loader is given by what its
      module does for an identifier, and each formatter module by its parser. */
  function Load(call: LoadCall, loaderFor: (string, string) -> Behaviour, parserFor: string -> Parser): (o: Outcome)
    ensures Normalise(call).Err? ==> o == Outcome(Err(NoConfigurationIdentifier), [], None)
    ensures o.events == []
  {
    match Normalise(call)
    case Err(e) => Outcome(Err(e), [], None)
    case Ok(settled) =>
      match GetEntity(LoaderKind, Some(settled.identifier), settled.loaders, None)
      case Err(e) => Outcome(Err(e), [], None)
      case Ok(loaderModule) =>
        var loader := loaderFor(loaderModule, settled.identifier);
        if !loader.formatterRequired then Outcome(Err(FormatterUnavailable), [], None)
        else
          match loader.formatterSuggested
          case Err(e) => Outcome(Err(e), [], None)
          case Ok(suggestion) =>
            match GetEntity(FormatterKind, Some(settled.identifier), settled.formatters, suggestion)
            case Err(e) => Outcome(Err(e), [], None)
            case Ok(formatterModule) =>
              var listener := Some(formatterModule);
              match loader.load
              case Err(e) => Outcome(Err(e), [], listener)
              case Ok(loaded) =>
                var formatted := Format(parserFor(formatterModule), loaded, false);
                Outcome(formatted.result, formatted.events, listener)
  }

  /** What Prefer emits for loader events after a `load`: nothing until the listener exists. */
  function Later(call: LoadCall, loaderFor: (string, string) -> Behaviour, parserFor: string -> Parser,
                 events: seq<LoaderEvent>): seq<PreferEvent>
  {
    match Load(call, loaderFor, parserFor).listener
    case None => []
    case Some(formatterModule) => Reactions(parserFor(formatterModule), events)
  }

  /** Once a suggestion is given, the identifier plays no part in which provider is chosen. */
  lemma SuggestionOverridesIdentifier(kind: EntityKind, id1: Option<string>, id2: Option<string>,
                                      providers: seq<Provider>, suggestion: Option<string>)
    requires Given(suggestion)
    ensures GetEntity(kind, id1, providers, suggestion).Ok? <==> GetEntity(kind, id2, providers, suggestion).Ok?
    ensures GetEntity(kind, id1, providers, suggestion).Ok? ==>
              GetEntity(kind, id1, providers, suggestion).value == GetEntity(kind, id2, providers, suggestion).value
  {
  }

  /** A provider that does not match can be removed from the front without changing the choice;
      one that matches is chosen whatever follows it. */
  lemma {:induction false} FirstMatchWins(kind: EntityKind, identifier: Option<string>, p: Provider,
                                          rest: seq<Provider>, suggestion: Option<string>)
    requires FilterBy(kind, identifier, suggestion).Ok?
    ensures Claims(p, FilterBy(kind, identifier, suggestion).value) ==>
              GetEntity(kind, identifier, [p] + rest, suggestion) == Ok(p.moduleId)
    ensures !Claims(p, FilterBy(kind, identifier, suggestion).value) ==>
              GetEntity(kind, identifier, [p] + rest, suggestion) == GetEntity(kind, identifier, rest, suggestion)
  {
    var filterBy := FilterBy(kind, identifier, suggestion).value;
    assert ([p] + rest)[0] == p;
    assert ([p] + rest)[1..] == rest;
  }

  /** With the default formatters and a bare suggestion, the formatter chosen is the first table
      entry registered under that type; a type with no entry fails naming the identifier. */
  lemma DefaultFormatterFor(identifier: Option<string>, c: string)
    requires c != "" && '.' !in c && '/' !in c
    ensures var r := GetEntity(FormatterKind, identifier, FormatterDefaults.DefaultFormatters(), Some(c));
            match FormatterDefaults.TypeIndex(c)
            case Some(i) => r == Ok(FormatterDefaults.FormatterTable[i].1)
            case None => r == Err(NoProviderFor(FormatterKind, Shown(identifier)))
  {
    var providers := FormatterDefaults.DefaultFormatters();
    var table := FormatterDefaults.FormatterTable;
    forall i | 0 <= i < |providers|
      ensures Claims(providers[i], [c]) <==> table[i].0 == c
    {
      FormatterDefaults.DefaultClaimsForBareName(c, i);
    }
    FirstClaimingFollowsTable(providers, [c], table, c, FormatterDefaults.TypeIndex(c));
  }

  /** When providers claim exactly the table rows of one type, the first claimant is the first such row. */
  lemma FirstClaimingFollowsTable(providers: seq<Provider>, filterBy: seq<string>, table: seq<(string, string)>,
                                  c: string, idx: Option<nat>)
    requires |table| == |providers|
    requires forall i :: 0 <= i < |providers| ==> (Claims(providers[i], filterBy) <==> table[i].0 == c)
    requires idx.Some? ==> idx.value < |table| && table[idx.value].0 == c
                           && forall j :: 0 <= j < idx.value ==> table[j].0 != c
    requires idx.None? ==> forall j :: 0 <= j < |table| ==> table[j].0 != c
    ensures FirstClaiming(providers, filterBy) == idx
  {
  }

  /** Loader events are handled one by one, in order. */
  lemma {:induction false} ReactionsAppend(parse: Parser, a: seq<LoaderEvent>, b: seq<LoaderEvent>)
    ensures Reactions(parse, a + b) == Reactions(parse, a) + Reactions(parse, b)
    decreases |a|
  {
    if |a| == 0 {
      assert a + b == b;
    } else {
      assert (a + b)[0] == a[0];
      assert (a + b)[1..] == a[1..] + b;
      ReactionsAppend(parse, a[1..], b);
    }
  }

  /** A loader that reports no formatter is needed stops the pipeline before a formatter is chosen
      or anything is loaded. */
  lemma FormatterRequiredFirst(call: LoadCall, loaderFor: (string, string) -> Behaviour, parserFor: string -> Parser)
    requires Normalise(call).Ok?
    requires var settled := Normalise(call).value;
             var m := GetEntity(LoaderKind, Some(settled.identifier), settled.loaders, None);
             m.Ok? && !loaderFor(m.value, settled.identifier).formatterRequired
    ensures Load(call, loaderFor, parserFor) == Outcome(Err(FormatterUnavailable), [], None)
  {
  }

  /** A successful load is the chosen loader's result parsed by the chosen formatter, with source and
      content as state; the formatter keeps listening for updates. */
  lemma LoadSuccess(call: LoadCall, loaderFor: (string, string) -> Behaviour, parserFor: string -> Parser)
    requires Load(call, loaderFor, parserFor).result.Ok?
    ensures var settled := Normalise(call).value;
            var o := Load(call, loaderFor, parserFor);
            var m := GetEntity(LoaderKind, Some(settled.identifier), settled.loaders, None).value;
            var b := loaderFor(m, settled.identifier);
            && Normalise(call).Ok?
            && b.formatterRequired && b.formatterSuggested.Ok? && b.load.Ok?
            && o.listener.Some?
            && o.listener.value == GetEntity(FormatterKind, Some(settled.identifier), settled.formatters,
                                             b.formatterSuggested.value).value
            && parserFor(o.listener.value)(b.load.value.content) == Ok(o.result.value.context)
            && o.result.value.state == map["source" := b.load.value.source, "content" := b.load.value.content]
  {
  }

  /** When every step succeeds, `load` resolves to the loaded text parsed by the chosen formatter,
      with source and content as state, and leaves that formatter listening. */
  lemma LoadSucceeds(call: LoadCall, loaderFor: (string, string) -> Behaviour, parserFor: string -> Parser)
    requires Normalise(call).Ok?
    requires var settled := Normalise(call).value;
             var m := GetEntity(LoaderKind, Some(settled.identifier), settled.loaders, None);
             && m.Ok?
             && var b := loaderFor(m.value, settled.identifier);
             && b.formatterRequired && b.formatterSuggested.Ok? && b.load.Ok?
             && var f := GetEntity(FormatterKind, Some(settled.identifier), settled.formatters, b.formatterSuggested.value);
             && f.Ok?
             && parserFor(f.value)(b.load.value.content).Ok?
    ensures var settled := Normalise(call).value;
            var b := loaderFor(GetEntity(LoaderKind, Some(settled.identifier), settled.loaders, None).value,
                               settled.identifier);
            var f := GetEntity(FormatterKind, Some(settled.identifier), settled.formatters, b.formatterSuggested.value).value;
            var o := Load(call, loaderFor, parserFor);
            && o.result == Ok(Configurator.Configurator(parserFor(f)(b.load.value.content).value,
                                                         map["source" := b.load.value.source,
                                                             "content" := b.load.value.content]))
            && o.listener == Some(f)
  {
  }

  /** When no loader claims the identifier, `load` fails naming it, before any formatter is chosen. */
  lemma NoLoaderFound(call: LoadCall, loaderFor: (string, string) -> Behaviour, parserFor: string -> Parser)
    requires Normalise(call).Ok?
    requires var settled := Normalise(call).value;
             forall i :: 0 <= i < |settled.loaders| ==> !Claims(settled.loaders[i], [settled.identifier])
    ensures Load(call, loaderFor, parserFor)
            == Outcome(Err(NoProviderFor(LoaderKind, Named(Normalise(call).value.identifier))), [], None)
  {
  }

  /** The base loader never loads: with it, every `load` fails, and with `load() must be
      implemented by subclass` once a formatter has been found. */
  lemma BaseLoaderNeverLoads(call: LoadCall, parserFor: string -> Parser)
    ensures Load(call, (m, id) => BaseBehaviour(id), parserFor).result.Err?
    ensures Load(call, (m, id) => BaseBehaviour(id), parserFor).listener.Some? ==>
              Load(call, (m, id) => BaseBehaviour(id), parserFor).result == Err(LoadNotImplemented)
  {
  }

  /** With the file loader, a loaded configuration's source is the file discovery resolved. */
  lemma FileLoaderSource(call: LoadCall, fs: FileLoader.FileSystem, files: FileLoader.FilesOptions,
                         standard: seq<string>, parserFor: string -> Parser)
    ensures var o := Load(call, (m, id) => FileLoader.FileBehaviour(fs, files, standard, id), parserFor);
            o.result.Ok? ==>
              var id := Normalise(call).value.identifier;
              var path := FileLoader.Resolved(fs, files, standard, id);
              && path.Ok?
              && o.result.value.state == map["source" := path.value, "content" := fs.contents[path.value]]
  {
    var loaderFor := (m, id) => FileLoader.FileBehaviour(fs, files, standard, id);
    if Load(call, loaderFor, parserFor).result.Ok? {
      LoadSuccess(call, loaderFor, parserFor);
    }
  }

  /** The update listener is registered before the first load: once a formatter has been chosen,
      later loader events reach the orchestrator even when that load failed. */
  lemma ListenerOutlivesFailedLoad(call: LoadCall, loaderFor: (string, string) -> Behaviour,
                                   parserFor: string -> Parser, events: seq<LoaderEvent>)
    requires Normalise(call).Ok?
    requires var settled := Normalise(call).value;
             var m := GetEntity(LoaderKind, Some(settled.identifier), settled.loaders, None);
             && m.Ok?
             && var b := loaderFor(m.value, settled.identifier);
             && b.formatterRequired && b.formatterSuggested.Ok? && b.load.Err?
             && GetEntity(FormatterKind, Some(settled.identifier), settled.formatters, b.formatterSuggested.value).Ok?
    ensures var settled := Normalise(call).value;
            var b := loaderFor(GetEntity(LoaderKind, Some(settled.identifier), settled.loaders, None).value,
                               settled.identifier);
            var f := GetEntity(FormatterKind, Some(settled.identifier), settled.formatters, b.formatterSuggested.value).value;
            && Load(call, loaderFor, parserFor).result == Err(b.load.error)
            && Later(call, loaderFor, parserFor, events) == Reactions(parserFor(f), events)
  {
  }

  /** A change to a watched file, seen through Prefer: a successful re-read that parses is
      announced as an update, a parse failure as an error, and a failed re-read not at all. */
  lemma FileChangeSeenByPrefer(fs: FileLoader.FileSystem, filename: string, event: string, parse: Parser)
    ensures var r := Reactions(parse, FileLoader.ChangeHandler(fs, filename, event));
            && (filename !in fs.contents ==> r == [])
            && (filename in fs.contents && parse(fs.contents[filename]).Err? ==>
                  r == [ConfigError(parse(fs.contents[filename]).error)])
            && (filename in fs.contents && parse(fs.contents[filename]).Ok? ==>
                  r == [ConfigUpdated(Configurator.Configurator(parse(fs.contents[filename]).value,
                          map["source" := filename, "content" := fs.contents[filename]]))])
  {
    var events := FileLoader.ChangeHandler(fs, filename, event);
    assert events == [events[0]] + [events[1]];
    ReactionsAppend(parse, [events[0]], [events[1]]);
    assert Reactions(parse, [events[0]]) == React(parse, events[0]) + Reactions(parse, []);
    assert Reactions(parse, [events[1]]) == React(parse, events[1]) + Reactions(parse, []);
  }
}
