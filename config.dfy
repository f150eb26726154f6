/** The generator's configuration fields and the caller options that set them. */
module Config {
  import opened Values

  /** The fields of the generator object: `basePath`, `targetService`,
      `overrideExtensions`, `targetNamespace`, `servicePrefix` and
      `ignoreOperations`. The three string fields that document metadata may
      overwrite are nullable. */
  datatype Settings = Settings(
    basePath: string,
    targetService: Option<string>,
    overrideExtensions: bool,
    targetNamespace: Option<string>,
    servicePrefix: Option<string>,
    ignoreOperations: set<string>)

  /** The field initialisers, with the empty ignore set that option processing
      installs when no list is given. */
  const Defaults: Settings :=
    Settings("", None, false, Some("ambassador"), Some(""), {})

  /** The caller's options after parsing: `None` is an absent key. */
  datatype Options = Options(
    targetService: Option<string>,
    targetNamespace: Option<string>,
    servicePrefix: Option<string>,
    ignoreOperations: Option<set<string>>,
    overrideExtensions: Option<bool>)

  /** Option processing: a given option replaces its field, an absent one
      leaves it, except the ignore list, which becomes empty when absent. */
  function ApplyOptions(s: Settings, o: Options): (r: Settings)
  {
    Settings(
      s.basePath,
      if o.targetService.Some? then o.targetService else s.targetService,
      if o.overrideExtensions.Some? then o.overrideExtensions.value else s.overrideExtensions,
      if o.targetNamespace.Some? then o.targetNamespace else s.targetNamespace,
      if o.servicePrefix.Some? then o.servicePrefix else s.servicePrefix,
      if o.ignoreOperations.Some? then o.ignoreOperations.value else {})
  }

  /** Applying the same options twice is applying them once, and option
      processing never touches the base path. */
  lemma ApplyOptionsIdempotent(s: Settings, o: Options)
    ensures ApplyOptions(ApplyOptions(s, o), o) == ApplyOptions(s, o)
    ensures ApplyOptions(s, o).basePath == s.basePath
  {
  }

  /** With no options at all, a fresh generator keeps its initial fields and
      gets the empty ignore set. */
  lemma NoOptionsKeepDefaults(s: Settings)
    requires s == Defaults.(ignoreOperations := s.ignoreOperations)
    ensures ApplyOptions(s, Options(None, None, None, None, None)) == Defaults
  {
  }
}
