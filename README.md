# Ambassador mapping generator, modelled in Dafny

`AmbassadorGenerator` is a swagger-codegen plugin that turns the operations of
an OpenAPI document into Ambassador mapping records. This project models its
core and proves properties of that model:

- **Configuration** (`Config`): the six generator fields with their
  initial values (`basePath ""`, `targetNamespace "ambassador"`,
  `servicePrefix ""`, `overrideExtensions false`, an empty ignore set), and
  option processing on options that are already parsed.
- **Document defaults** (`DocumentDefaults`, and the methods
  `InitializeBasePath` and `PreprocessOpenAPI` of the class
  `Generator.AmbassadorGenerator`). The base path comes from the first server
  URL. The root `x-ambassador` block may then replace the target service,
  namespace and prefix, unless the caller set a target service and asked for
  it to override extensions.
- **Per-operation transform** (`Operations`, and `ProcessOperation` and
  `PostProcessOperations` of the class). Operations are handled in list
  order. For each one the pass:
  - removes it when its id is on the ignore list;
  - rewrites its path with the greedy regex `\{.*}` and prepends the base path;
  - lower-cases its id;
  - when a target service is set, merges `service`, `servicename`,
    `namespace` and `prefix` into its `x-ambassador` map;
  - removes it when a pre-existing map says `ignore: true`.

  `PostProcessOperations` is a loop over a snapshot of the list. It rewrites
  the operation objects in place and removes operations from the live list
  with `List.remove(Object)`, taken here as removal of that same object.
  It is proved equal to the reference definition
  `Operations.PostProcess`, whose properties are proved as lemmas.
- **Service names** (`ServiceNames`): `createServiceName` strips the scheme
  through the first `"://"`, then cuts at the last `':'`, then at the last
  `'.'`. Each cut is made only when its index is greater than 0.
- **Java strings and values** (`JavaStrings`, `Values`): `indexOf`,
  `lastIndexOf`, ASCII `toLowerCase`, nullable references (`Option`), and the
  objects a YAML-filled map may hold. Casts that fail (a ClassCastException,
  or a NullPointerException on a null root block) are the `Throws` outcome of
  `Values.Read`; they are not preconditions.

The path rewrite follows Java's regex semantics. `.` does not match a line
terminator (`\n`, `\r`, U+0085, U+2028, U+2029), and the match is the longest
one. `PathPatterns.RewriteIsGreedyCollapse` proves that on a single-line path
this is the collapse of the span from the first `{` to the last `}` into the
literal `{.*}`.

Three consequences of the code are worth stating on their own:
- Because the code cuts at `lastIndexOf('.')`,
  `grpc://foo.default.svc.cluster.local:8080` is named
  `foo.default.svc.cluster` (`ServiceNames.ServiceNameOfClusterAddress`).
- The service-name canonicalisation is not idempotent: `foo.default` is
  named `foo` (`ServiceNames.ServiceNameNotIdempotent`).
- A root-block namespace reaches the operations only when the caller has not
  both set a target service and turned on `overrideExtensions`. That
  combination shields the fields from the root block
  (`DocumentDefaults.CallerOverrideShieldsFields`).

## Model

| member | source | states |
|---|---|---|
| Values.AsString | src/main/java/io/datawire/codegen/AmbassadorGenerator.java:126-134 | reading a map entry into a `String` throws exactly for a non-string, non-null object, gives null exactly for null, and gives `s` exactly for the string `s` |
| Values.FromString | src/main/java/io/datawire/codegen/AmbassadorGenerator.java:203-209 | a nullable string put into the map reads back as the same nullable string |
| JavaStrings.IndexOf | src/main/java/io/datawire/codegen/AmbassadorGenerator.java:221 | the result is -1 exactly when the pattern occurs nowhere, and otherwise the first index where it occurs |
| JavaStrings.LastIndexOfChar | src/main/java/io/datawire/codegen/AmbassadorGenerator.java:226-232 | the result is -1 exactly when the character is absent, and otherwise an index holding it with none after it |
| JavaStrings.ToLowerCase | src/main/java/io/datawire/codegen/AmbassadorGenerator.java:175 | the same length, each character lower-cased, and no upper-case letter left |
| ServiceNames.StripSchemeIsSuffix | src/main/java/io/datawire/codegen/AmbassadorGenerator.java:221-224 | a suffix of the input; the input itself when it has no `"://"`; otherwise what follows the first `"://"` |
| ServiceNames.CutAtLastIsPrefix | src/main/java/io/datawire/codegen/AmbassadorGenerator.java:226-232 | a prefix of the input; the input itself when the character does not occur after index 0; otherwise a non-empty prefix ending just before its last occurrence |
| ServiceNames.CreateServiceName | src/main/java/io/datawire/codegen/AmbassadorGenerator.java:216-219 | null gives `""`, and a name is never longer than its address |
| ServiceNames.ServiceNameIsSubstring | src/main/java/io/datawire/codegen/AmbassadorGenerator.java:216-235 | the service name is always a contiguous substring of the address |
| ServiceNames.NoSeparatorNoScheme | src/main/java/io/datawire/codegen/AmbassadorGenerator.java:221-224 | an address in which no `':'` is followed by `'/'` keeps its scheme part |
| ServiceNames.SchemeStripped | src/main/java/io/datawire/codegen/AmbassadorGenerator.java:221-224 | `scheme://rest` with no `':'` in the scheme becomes `rest` |
| ServiceNames.CutAtLastSplit | src/main/java/io/datawire/codegen/AmbassadorGenerator.java:226-232 | cutting `a c b` at the last `c` (none in `b`, `a` non-empty) leaves `a` |
| ServiceNames.PlainNameIsFixed | src/main/java/io/datawire/codegen/AmbassadorGenerator.java:216-235 | a name with no `"://"` and no `':'` or `'.'` after index 0 is its own service name |
| ServiceNames.ServiceNameOfAddress | src/main/java/io/datawire/codegen/AmbassadorGenerator.java:216-235 | `scheme://host.label:port` is named `host` |
| ServiceNames.ServiceNameOfDottedName | src/main/java/io/datawire/codegen/AmbassadorGenerator.java:230-232 | `host.label` with no `':'` is named `host` |
| ServiceNames.ServiceNameOfBareName | src/main/java/io/datawire/codegen/AmbassadorGenerator.java:216-219 | null is named `""` and `foo` is named `foo` |
| ServiceNames.ServiceNameOfShortAddress | src/main/java/io/datawire/codegen/AmbassadorGenerator.java:216-235 | `grpc://foo.default.svc:8080` is named `foo.default` |
| ServiceNames.ServiceNameOfClusterAddress | src/main/java/io/datawire/codegen/AmbassadorGenerator.java:230-232 | `grpc://foo.default.svc.cluster.local:8080` is named `foo.default.svc.cluster` |
| ServiceNames.SchemeAtIndexZero | src/main/java/io/datawire/codegen/AmbassadorGenerator.java:221-224 | a `"://"` at index 0 is still stripped |
| ServiceNames.ColonAtIndexZero | src/main/java/io/datawire/codegen/AmbassadorGenerator.java:226-228 | a `':'` at index 0 is not taken for a port |
| ServiceNames.ServiceNameOfFooDefault | src/main/java/io/datawire/codegen/AmbassadorGenerator.java:230-232 | `foo.default` is named `foo` |
| ServiceNames.ServiceNameNotIdempotent | src/main/java/io/datawire/codegen/AmbassadorGenerator.java:216-235 | the name of the name of `grpc://foo.default.svc:8080` is `foo`, not `foo.default` |
| PathPatterns.LineEndIsFirstTerminator | src/main/java/io/datawire/codegen/AmbassadorGenerator.java:172 | the line end is the first line terminator, or the end of the path |
| PathPatterns.LastCloseBeforeIsLastIndexOf | src/main/java/io/datawire/codegen/AmbassadorGenerator.java:172 | the last `}` before the line end is `lastIndexOf('}')` of that prefix |
| PathPatterns.MatchEnd | src/main/java/io/datawire/codegen/AmbassadorGenerator.java:172 | a match starting at `{` ends at a `}` inside the path, or there is none |
| PathPatterns.MatchEndIsLongest | src/main/java/io/datawire/codegen/AmbassadorGenerator.java:172 | the match crosses no line terminator, and every later `}` lies beyond a line terminator |
| PathPatterns.NoCloseUnchanged | src/main/java/io/datawire/codegen/AmbassadorGenerator.java:172 | a path without `}` is not rewritten |
| PathPatterns.RewriteIsGreedyCollapse | src/main/java/io/datawire/codegen/AmbassadorGenerator.java:172 | on a single-line path the rewrite replaces the span from the first `{` to the last `}` by `{.*}`, and changes nothing when there is no such span |
| PathPatterns.CollapseSpan | src/main/java/io/datawire/codegen/AmbassadorGenerator.java:172 | `pre{inner}post` collapses to `pre{.*}post` when `pre` has no `{` and `post` no `}` |
| PathPatterns.RewriteOfSpan | src/main/java/io/datawire/codegen/AmbassadorGenerator.java:172 | the rewrite of such a single-line path is `pre{.*}post` |
| PathPatterns.RewriteOneParameter | src/main/java/io/datawire/codegen/AmbassadorGenerator.java:172 | `/users/{id}` becomes `/users/{.*}` |
| PathPatterns.RewriteTwoParameters | src/main/java/io/datawire/codegen/AmbassadorGenerator.java:172 | `/a/{x}/b/{y}` becomes `/a/{.*}` |
| PathPatterns.RewriteNoParameter | src/main/java/io/datawire/codegen/AmbassadorGenerator.java:172 | `/pets` is unchanged |
| Config.ApplyOptionsIdempotent | src/main/java/io/datawire/codegen/AmbassadorGenerator.java:56-88 | processing the same options twice equals processing them once, and the base path is never touched |
| Config.NoOptionsKeepDefaults | src/main/java/io/datawire/codegen/AmbassadorGenerator.java:79-83 | with no options, the initial fields stay and the ignore set becomes empty |
| DocumentDefaults.BasePathFromFirstServer | src/main/java/io/datawire/codegen/AmbassadorGenerator.java:140-156 | a first server URL starting with `/` becomes the base path, and any other first URL that parses gives its path |
| DocumentDefaults.BasePathKeptWithoutUsableServer | src/main/java/io/datawire/codegen/AmbassadorGenerator.java:140-156 | no servers, an empty list, or a malformed first URL keep the base path |
| DocumentDefaults.RootBlockKeepsOtherFields | src/main/java/io/datawire/codegen/AmbassadorGenerator.java:123-137 | the root block never changes the base path, the override flag or the ignore set |
| DocumentDefaults.CallerOverrideShieldsFields | src/main/java/io/datawire/codegen/AmbassadorGenerator.java:123 | a caller target service with override leaves every field as it is, whatever the block holds |
| DocumentDefaults.NoRootBlockKeepsSettings | src/main/java/io/datawire/codegen/AmbassadorGenerator.java:125 | null root extensions, or none named `x-ambassador`, leave every field as it is |
| DocumentDefaults.RootBlockKeyPrecedence | src/main/java/io/datawire/codegen/AmbassadorGenerator.java:125-135 | without that shield, and whatever other root extensions there are, a present `service`, `namespace` or `prefix` key replaces its field (caller values included, null clears it), and an absent key keeps it |
| DocumentDefaults.RootBlockThrows | src/main/java/io/datawire/codegen/AmbassadorGenerator.java:124-135 | for any root extension map holding `x-ambassador`, the root block throws exactly when it is not a map (null included), or one of its three keys holds neither a string nor null |
| DocumentDefaults.PreprocessIdempotent | src/main/java/io/datawire/codegen/AmbassadorGenerator.java:118-156 | preprocessing a document twice gives the same fields as preprocessing it once |
| Operations.AmbassadorBlock | src/main/java/io/datawire/codegen/AmbassadorGenerator.java:185-190 | the cast throws exactly for a non-null non-map entry, gives null exactly for an absent or null entry, and gives a map exactly for a map entry |
| Operations.IgnoredOperationRemoved | src/main/java/io/datawire/codegen/AmbassadorGenerator.java:164-169 | an operation whose original id is on the ignore list is removed, whatever its vendor block says |
| Operations.RemovedExactly | src/main/java/io/datawire/codegen/AmbassadorGenerator.java:164-195 | an operation is removed exactly when its id is ignored, or a target service is set and its pre-existing map has `ignore` equal to Boolean TRUE |
| Operations.ThrowsExactly | src/main/java/io/datawire/codegen/AmbassadorGenerator.java:178-201 | an operation throws exactly when a target service is set, its id is not ignored, and either its `x-ambassador` entry is a non-map object, or its own kept map holds a non-string `service` and override is off |
| Operations.SurvivorRewritten | src/main/java/io/datawire/codegen/AmbassadorGenerator.java:164-175 | a surviving operation's id was not ignored, is the lower-cased original, and holds no upper-case letter; its path is the base path followed by the rewritten path |
| Operations.SurvivorPathIsGreedy | src/main/java/io/datawire/codegen/AmbassadorGenerator.java:172 | on a single-line path a survivor's path is the base path followed by the greedy collapse |
| Operations.WithoutTargetService | src/main/java/io/datawire/codegen/AmbassadorGenerator.java:178 | with no target service nothing throws, only the ignore list removes, and the vendor extensions are left exactly as they were |
| Operations.MergeThrowsExactly | src/main/java/io/datawire/codegen/AmbassadorGenerator.java:197-201 | the merge throws exactly when a kept `service` is neither a string nor null |
| Operations.MergeWritesFields | src/main/java/io/datawire/codegen/AmbassadorGenerator.java:197-209 | `service`, `namespace` and `prefix` take the generator's value when override is on or the key is absent, and keep the map's own value otherwise; `servicename` is the name of the resulting service |
| Operations.MergeKeepsOtherKeys | src/main/java/io/datawire/codegen/AmbassadorGenerator.java:197-209 | the merge adds exactly the four keys it writes and keeps every other entry |
| Operations.SurvivorMerged | src/main/java/io/datawire/codegen/AmbassadorGenerator.java:178-209 | with a target service, a survivor was not flagged, and its `x-ambassador` entry is the merge of its own map, or of a new empty one; its other extension entries are kept |
| Operations.PostProcessOkExactly | src/main/java/io/datawire/codegen/AmbassadorGenerator.java:161-214 | the list pass succeeds exactly when no single operation throws |
| Operations.SurvivorsInOrder | src/main/java/io/datawire/codegen/AmbassadorGenerator.java:163-195 | the output lists, in input order and once each, the transformed versions of exactly the operations that are not removed; nothing is added |
| Operations.PathUnderBasePath | src/main/java/io/datawire/codegen/AmbassadorGenerator.java:172 | `/users/{id}` under the base path `/v1` becomes `/v1/users/{.*}` |
| Operations.LegacyServiceRetained | src/main/java/io/datawire/codegen/AmbassadorGenerator.java:197-199 | an operation's own `service: legacy` survives a caller target `new` without override, and becomes `new` with override |
| Operations.DocumentNamespaceReachesOperations | src/main/java/io/datawire/codegen/AmbassadorGenerator.java:130-204 | an unshielded root-block namespace reaches every surviving operation that has no namespace of its own, or all of them under override |
| Generator.RemoveFirst | src/main/java/io/datawire/codegen/AmbassadorGenerator.java:167 | `remove` changes nothing when the reference is absent, and otherwise leaves one element fewer |
| Generator.RemoveFirstContents | src/main/java/io/datawire/codegen/AmbassadorGenerator.java:167 | when the reference occurs, exactly its first occurrence is taken out and the other elements keep their order |
| Generator.RemoveFirstAt | src/main/java/io/datawire/codegen/AmbassadorGenerator.java:193 | removing a reference whose first occurrence is at a known position takes out exactly that position |
| Generator.AmbassadorGenerator.constructor | src/main/java/io/datawire/codegen/AmbassadorGenerator.java:23-28 | a new generator holds the field initialisers, with the empty ignore set |
| Generator.AmbassadorGenerator.ProcessOpts | src/main/java/io/datawire/codegen/AmbassadorGenerator.java:56-88 | each given option replaces its field, an absent one keeps it, and an absent ignore list gives the empty set |
| Generator.AmbassadorGenerator.InitializeBasePath | src/main/java/io/datawire/codegen/AmbassadorGenerator.java:140-156 | only the base path changes, to `InitialBasePath` of the old one: a first URL starting with `/`, else its parsed path, else unchanged (`BasePathFromFirstServer`, `BasePathKeptWithoutUsableServer`) |
| Generator.AmbassadorGenerator.PreprocessOpenAPI | src/main/java/io/datawire/codegen/AmbassadorGenerator.java:118-138 | the method throws exactly when the document pass does; otherwise the fields become its result; after a throw the base path is set and the override flag and ignore set are kept |
| Generator.AmbassadorGenerator.ProcessOperation | src/main/java/io/datawire/codegen/AmbassadorGenerator.java:164-210 | one loop iteration matches the per-operation transform |
| Generator.AmbassadorGenerator.PostProcessOperations | src/main/java/io/datawire/codegen/AmbassadorGenerator.java:159-214 | the loop over the snapshot leaves in the live list exactly the reference list pass's result, or throws when it does |

## Left out

- `java.net.URL` parsing is the parameter `urlPath`. `None` stands for a
  MalformedURLException, and the path extraction itself is not modelled.
- The string parsing of `processOpts` is left out: the `additionalProperties`
  lookup, `toString`, `split(",")` and `Boolean.valueOf`. The template swap
  for a prefix is left out too. `Options` holds the parsed values.
- The swagger-codegen plumbing is left out: the `super.*` calls, CLI option
  registration, template folders, `getTag`/`getName`/`getHelp`, the identity
  `escape*` overrides and the mustache rendering.
- Logging is left out. It has no effect on the result.
- Null inputs that would throw a NullPointerException are not modelled: a null
  server URL, path or operation id, a null operation list, or a call to
  `postProcessOperations` before `processOpts` (when the ignore set is still
  null).
- `toLowerCase` is ASCII only. Locale-dependent and non-ASCII case mapping is
  not modelled.
- Java's regex engine is modelled only for the pattern `\{.*}`. Its closed
  form is proved for paths without line terminators.
- Operations are values addressed by their position in the snapshot. The
  model assumes the list holds each operation object once. An object listed
  twice, or maps shared between operations, is not modelled.
- `StripScheme`, `CutAtLast`, `ApplyOptions`, `InitialBasePath`,
  `ReadField`, `ApplyRootBlock`, `Preprocess`, `Values.Get`, `StartBlock`,
  `MergeBlock`, `TransformOperation`, `PostProcess`,
  `PathPatterns.ReplacePlaceholders` and `PathPatterns.GreedyCollapse` have
  no `ensures` of their own. They are reference definitions, and their
  properties are the lemmas in the table.
- Generator.AmbassadorGenerator.PostProcessOperations: after a
  ClassCastException, the operations removed and rewritten before it stay
  so in the source; the method returns only `Throws` and does not say what
  the list holds then.
- Generator.AmbassadorGenerator.PostProcessOperations: `List.remove(Object)`
  removes the first element `equals` to its argument. `CodegenOperation.equals`
  is not part of this model; removal is taken to be by identity, so an
  operation equal to an earlier one but distinct from it is not modelled.
- Generator.AmbassadorGenerator.PreprocessOpenAPI: after an exception, the
  contract does not say which of the three document fields were already
  assigned.
- Operations.TransformOperation: the path and id of an operation removed by its
  `ignore` flag were already rewritten in place. Because it leaves the list,
  the model does not keep that object's state.
- `src/test/java/io/datawire/codegen/AmbassadorGeneratorTest.java` reads a
  generated file and asserts nothing. It is not part of this model.
