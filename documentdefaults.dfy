/** Document-level defaults: the base path taken from the first server, and
    the root `x-ambassador` block that may replace the generator's service,
    namespace and prefix. */
module DocumentDefaults {
  import opened Values
  import opened Config

  /** The parts of a parsed OpenAPI document the generator reads: the server
      URLs in order (null when absent) and the root vendor extensions. */
  datatype OpenApi = OpenApi(servers: Option<seq<string>>, extensions: Option<map<string, Extension>>)

  predicate StartsWithSlash(url: string) { |url| > 0 && url[0] == '/' }

  /** The base path after `initializeBasePath`. `urlPath` stands for
      `new URL(url).getPath()`, with `None` for a MalformedURLException. */
  function InitialBasePath(basePath: string, servers: Option<seq<string>>, urlPath: string -> Option<string>): (r: string) {
    if servers.None? || |servers.value| == 0 then basePath
    else
      var url := servers.value[0];
      if StartsWithSlash(url) then url
      else match urlPath(url)
        case Some(path) => path
        case None => basePath
  }

  /** A root-block entry read into a `String` field: a present key overwrites
      the field (with null for a null value), an absent key keeps it. */
  function ReadField(values: map<string, Value>, key: string, field: Option<string>): (r: Read<Option<string>>) {
    if key in values then AsString(values[key]) else Ok(field)
  }

  /** The root `x-ambassador` block, consulted unless the caller set a target
      service and asked for it to override extensions. A null block throws
      a NullPointerException and a non-map one a ClassCastException. */
  function ApplyRootBlock(s: Settings, extensions: Option<map<string, Extension>>): (r: Read<Settings>) {
    if s.targetService.Some? && s.overrideExtensions then Ok(s)
    else if extensions.None? || "x-ambassador" !in extensions.value then Ok(s)
    else match extensions.value["x-ambassador"]
      case Scalar(_) => Throws
      case Block(values) =>
        var service :- ReadField(values, "service", s.targetService);
        var namespace :- ReadField(values, "namespace", s.targetNamespace);
        var prefix :- ReadField(values, "prefix", s.servicePrefix);
        Ok(s.(targetService := service, targetNamespace := namespace, servicePrefix := prefix))
  }

  /** `preprocessOpenAPI`: the base path first, then the root block. */
  function Preprocess(s: Settings, doc: OpenApi, urlPath: string -> Option<string>): (r: Read<Settings>) {
    ApplyRootBlock(s.(basePath := InitialBasePath(s.basePath, doc.servers, urlPath)), doc.extensions)
  }

  /** A first server URL that starts with '/' becomes the base path; any other
      first URL that parses gives its path. */
  lemma BasePathFromFirstServer(basePath: string, servers: Option<seq<string>>, urlPath: string -> Option<string>)
    ensures var r := InitialBasePath(basePath, servers, urlPath);
            && (servers.Some? && |servers.value| > 0 && StartsWithSlash(servers.value[0]) ==>
                  r == servers.value[0])
            && ((servers.Some? && |servers.value| > 0 && !StartsWithSlash(servers.value[0]) &&
                 urlPath(servers.value[0]).Some?) ==> r == urlPath(servers.value[0]).value)
  {
  }

  /** No server, or a first server whose URL is malformed, keeps the base path. */
  lemma BasePathKeptWithoutUsableServer(basePath: string, servers: Option<seq<string>>, urlPath: string -> Option<string>)
    requires servers.None? || |servers.value| == 0 ||
             (!StartsWithSlash(servers.value[0]) && urlPath(servers.value[0]).None?)
    ensures InitialBasePath(basePath, servers, urlPath) == basePath
  {
  }

  /** A root block never touches the base path, the override flag or the ignore list. */
  lemma RootBlockKeepsOtherFields(s: Settings, extensions: Option<map<string, Extension>>)
    ensures ApplyRootBlock(s, extensions).Ok? ==>
            var r := ApplyRootBlock(s, extensions).value;
            r.basePath == s.basePath && r.overrideExtensions == s.overrideExtensions &&
            r.ignoreOperations == s.ignoreOperations
  {
  }

  /** A caller-set target service with `overrideExtensions` shields all three
      fields from the root block, whatever the block holds. */
  lemma CallerOverrideShieldsFields(s: Settings, extensions: Option<map<string, Extension>>)
    requires s.targetService.Some? && s.overrideExtensions
    ensures ApplyRootBlock(s, extensions) == Ok(s)
  {
  }

  /** Null root extensions, or no `x-ambassador` among them, leave the
      settings as they are. */
  lemma NoRootBlockKeepsSettings(s: Settings, extensions: Option<map<string, Extension>>)
    requires extensions.None? || "x-ambassador" !in extensions.value
    ensures ApplyRootBlock(s, extensions) == Ok(s)
  {
  }

  /** Without that shield, each key of the root block decides its field: a
      string value replaces it (the caller's value included), null clears it,
      and an absent key keeps it. Other root extensions play no part. */
  lemma RootBlockKeyPrecedence(s: Settings, extensions: map<string, Extension>, values: map<string, Value>)
    requires s.targetService.None? || !s.overrideExtensions
    requires "x-ambassador" in extensions && extensions["x-ambassador"] == Block(values)
    requires ApplyRootBlock(s, Some(extensions)).Ok?
    ensures var r := ApplyRootBlock(s, Some(extensions)).value;
            && ("service" in values ==> Ok(r.targetService) == AsString(values["service"]))
            && ("service" !in values ==> r.targetService == s.targetService)
            && ("namespace" in values ==> Ok(r.targetNamespace) == AsString(values["namespace"]))
            && ("namespace" !in values ==> r.targetNamespace == s.targetNamespace)
            && ("prefix" in values ==> Ok(r.servicePrefix) == AsString(values["prefix"]))
            && ("prefix" !in values ==> r.servicePrefix == s.servicePrefix)
  {
  }

  /** The root block throws exactly when it is not a map, or when one of its
      three keys holds something that is neither a string nor null. */
  lemma RootBlockThrows(s: Settings, extensions: map<string, Extension>)
    requires s.targetService.None? || !s.overrideExtensions
    requires "x-ambassador" in extensions
    ensures var entry := extensions["x-ambassador"];
            ApplyRootBlock(s, Some(extensions)) == Throws <==>
            entry.Scalar? ||
            exists key :: key in {"service", "namespace", "prefix"} && key in entry.entries &&
                          AsString(entry.entries[key]).Throws?
  {
    var entry := extensions["x-ambassador"];
    if entry.Block? {
      var values := entry.entries;
      if ApplyRootBlock(s, Some(extensions)).Throws? {
        var key :| key in ["service", "namespace", "prefix"] && key in values && AsString(values[key]).Throws?;
        assert key in {"service", "namespace", "prefix"};
      }
    }
  }

  /** Preprocessing twice is preprocessing once: the second pass reads the same
      server and the same root block and finds nothing left to change. */
  lemma {:induction false} PreprocessIdempotent(s: Settings, doc: OpenApi, urlPath: string -> Option<string>)
    requires Preprocess(s, doc, urlPath).Ok?
    ensures Preprocess(Preprocess(s, doc, urlPath).value, doc, urlPath) == Preprocess(s, doc, urlPath)
  {
    var r := Preprocess(s, doc, urlPath).value;
    var b := InitialBasePath(s.basePath, doc.servers, urlPath);
    assert r.basePath == b;
    assert InitialBasePath(b, doc.servers, urlPath) == b;
    assert r.(basePath := b) == r;
  }
}
