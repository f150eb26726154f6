/** The per-operation transform of `postProcessOperations`, as a reference
    definition on values: what happens to one operation, and to the list. */
module Operations {
  import opened Values
  import opened Config
  import opened JavaStrings
  import opened ServiceNames
  import opened PathPatterns
  import opened DocumentDefaults

  /** The fields of a CodegenOperation the generator reads and writes; a null
      `vendorExtensions` map is `None`. */
  datatype Operation = Operation(operationId: string, path: string, vendorExtensions: Option<map<string, Extension>>)

  /** `(Map<Object, String>) extensions.get("x-ambassador")`: null when the key
      is absent or maps to null, a ClassCastException for any non-map entry. */
  function AmbassadorBlock(extensions: map<string, Extension>): (r: Read<Option<map<string, Value>>>)
    ensures r == Throws <==> "x-ambassador" in extensions && extensions["x-ambassador"].Scalar? &&
                             extensions["x-ambassador"].v != Null
    ensures r == Ok(None) <==> "x-ambassador" !in extensions || extensions["x-ambassador"] == Scalar(Null)
    ensures r.Ok? && r.value.Some? <==> "x-ambassador" in extensions && extensions["x-ambassador"].Block?
  {
    if "x-ambassador" !in extensions then Ok(None)
    else match extensions["x-ambassador"]
      case Block(values) => Ok(Some(values))
      case Scalar(Null) => Ok(None)
      case Scalar(_) => Throws
  }

  /** Whether `overrideExtensions || !values.containsKey(key)` lets the
      generator's value be written under `key`. */
  predicate Writes(s: Settings, values: map<string, Value>, key: string) {
    s.overrideExtensions || key !in values
  }

  /** The `put`s into an operation's `x-ambassador` map when `targetService`
      is `target`: `service`, then `servicename` from the resulting service
      (a non-string service throws when cast for `createServiceName`), then
      `namespace` and `prefix`. */
  function MergeBlock(s: Settings, target: string, values: map<string, Value>): (r: Read<map<string, Value>>) {
    var withService := if Writes(s, values, "service") then values["service" := Str(target)] else values;
    var service :- AsString(withService["service"]);
    var named := withService["servicename" := Str(CreateServiceName(service))];
    var withNamespace :=
      if Writes(s, named, "namespace") then named["namespace" := FromString(s.targetNamespace)] else named;
    var withPrefix :=
      if Writes(s, withNamespace, "prefix") then withNamespace["prefix" := FromString(s.servicePrefix)] else withNamespace;
    Ok(withPrefix)
  }

  /** One iteration of the loop of `postProcessOperations` on one operation:
      `Ok(None)` when the operation is removed from the list, `Ok(Some(op'))`
      with the operation as the loop leaves it, or `Throws`. */
  function TransformOperation(s: Settings, op: Operation): (r: Read<Option<Operation>>) {
    if op.operationId in s.ignoreOperations then Ok(None)
    else
      var rewritten := op.(path := s.basePath + ReplacePlaceholders(op.path),
                           operationId := ToLowerCase(op.operationId));
      if s.targetService.None? then Ok(Some(rewritten))
      else
        var extensions := if op.vendorExtensions.Some? then op.vendorExtensions.value else map[];
        var block :- AmbassadorBlock(extensions);
        if block.Some? && Get(block.value, "ignore") == Bool(true) then Ok(None)
        else
          var values := if block.Some? then block.value else map[];
          var merged :- MergeBlock(s, s.targetService.value, values);
          Ok(Some(rewritten.(vendorExtensions := Some(extensions["x-ambassador" := Block(merged)]))))
  }

  /** The operation list after `postProcessOperations`: each operation in list
      order, the removed ones left out; any exception aborts the whole call. */
  function PostProcess(s: Settings, ops: seq<Operation>): (r: Read<seq<Operation>>)
    decreases |ops|
  {
    if |ops| == 0 then Ok([])
    else
      var done :- PostProcess(s, ops[..|ops| - 1]);
      var step :- TransformOperation(s, ops[|ops| - 1]);
      Ok(done + if step.Some? then [step.value] else [])
  }

  /** The list pass keeps the operation, in rewritten form. */
  predicate Kept(s: Settings, op: Operation) {
    TransformOperation(s, op).Ok? && TransformOperation(s, op).value.Some?
  }

  /** The operation's own `x-ambassador` map, when it already had one. */
  predicate HasOwnBlock(op: Operation) {
    op.vendorExtensions.Some? && "x-ambassador" in op.vendorExtensions.value &&
    op.vendorExtensions.value["x-ambassador"].Block?
  }

  /** A pre-existing `x-ambassador` map whose `ignore` entry is Boolean TRUE. */
  predicate FlaggedIgnore(op: Operation) {
    HasOwnBlock(op) && Get(op.vendorExtensions.value["x-ambassador"].entries, "ignore") == Bool(true)
  }

  /** The `x-ambassador` map the merge starts from: the operation's own, or a new empty one. */
  function StartBlock(op: Operation): (r: map<string, Value>) {
    if HasOwnBlock(op) then op.vendorExtensions.value["x-ambassador"].entries else map[]
  }

  /** The caller's ignore list wins over everything the vendor block says. */
  lemma IgnoredOperationRemoved(s: Settings, op: Operation)
    requires op.operationId in s.ignoreOperations
    ensures TransformOperation(s, op) == Ok(None)
  {
  }

  /** An operation is removed exactly when its original id is on the ignore
      list, or a target service is set and its pre-existing vendor map carries
      `ignore: true`; a map the generator creates never removes it. */
  lemma RemovedExactly(s: Settings, op: Operation)
    ensures TransformOperation(s, op) == Ok(None) <==>
            op.operationId in s.ignoreOperations || (s.targetService.Some? && FlaggedIgnore(op))
  {
    if op.operationId !in s.ignoreOperations && s.targetService.Some? && !FlaggedIgnore(op) {
      var extensions := if op.vendorExtensions.Some? then op.vendorExtensions.value else map[];
      if AmbassadorBlock(extensions).Ok? && AmbassadorBlock(extensions).value.Some? {
        assert HasOwnBlock(op);
      }
    }
  }

  /** The call throws exactly when a target service is set, the operation is
      not on the ignore list, and either its `x-ambassador` entry is a non-map
      object, or its own map is kept (no `ignore: true`, no override) with a
      `service` that is neither a string nor null. */
  lemma ThrowsExactly(s: Settings, op: Operation)
    ensures TransformOperation(s, op) == Throws <==>
            op.operationId !in s.ignoreOperations && s.targetService.Some? &&
            var extensions := if op.vendorExtensions.Some? then op.vendorExtensions.value else map[];
            (AmbassadorBlock(extensions) == Throws ||
             (HasOwnBlock(op) && !FlaggedIgnore(op) && !s.overrideExtensions &&
              "service" in StartBlock(op) && AsString(StartBlock(op)["service"]) == Throws))
  {
  }

  /** A surviving operation has the original id lower-cased and no longer
      holding an upper-case letter, and the base path followed by its path
      with the placeholder span rewritten. */
  lemma SurvivorRewritten(s: Settings, op: Operation, r: Operation)
    requires TransformOperation(s, op) == Ok(Some(r))
    ensures op.operationId !in s.ignoreOperations
    ensures r.operationId == ToLowerCase(op.operationId)
    ensures forall k :: 0 <= k < |r.operationId| ==> !IsUpper(r.operationId[k])
    ensures r.path == s.basePath + ReplacePlaceholders(op.path)
  {
  }

  /** On a path without line terminators the rewrite is the greedy collapse
      from the first '{' to the last '}'. */
  lemma SurvivorPathIsGreedy(s: Settings, op: Operation, r: Operation)
    requires TransformOperation(s, op) == Ok(Some(r))
    requires NoLineTerminator(op.path)
    ensures r.path == s.basePath + GreedyCollapse(op.path)
  {
    RewriteIsGreedyCollapse(op.path);
  }

  /** Without a target service nothing throws, only the ignore list removes
      operations, and the vendor extensions are left exactly as they were. */
  lemma WithoutTargetService(s: Settings, op: Operation)
    requires s.targetService.None?
    ensures TransformOperation(s, op).Ok?
    ensures TransformOperation(s, op).value.None? <==> op.operationId in s.ignoreOperations
    ensures TransformOperation(s, op).value.Some? ==>
            TransformOperation(s, op).value.value.vendorExtensions == op.vendorExtensions
  {
  }

  /** The merge throws exactly when a kept `service` is neither a string nor null. */
  lemma MergeThrowsExactly(s: Settings, target: string, values: map<string, Value>)
    ensures MergeBlock(s, target, values) == Throws <==>
            !Writes(s, values, "service") && AsString(values["service"]) == Throws
  {
  }

  /** The merge rule: `service`, `namespace` and `prefix` take the generator's
      values when extensions are overridden or the key is absent and keep the
      map's own otherwise; `servicename` is the canonical name of the
      resulting service. */
  lemma MergeWritesFields(s: Settings, target: string, values: map<string, Value>)
    requires MergeBlock(s, target, values).Ok?
    ensures var m := MergeBlock(s, target, values).value;
            && {"service", "servicename", "namespace", "prefix"} <= m.Keys
            && m["service"] == (if Writes(s, values, "service") then Str(target) else values["service"])
            && m["namespace"] == (if Writes(s, values, "namespace") then FromString(s.targetNamespace) else values["namespace"])
            && m["prefix"] == (if Writes(s, values, "prefix") then FromString(s.servicePrefix) else values["prefix"])
            && AsString(m["service"]).Ok?
            && m["servicename"] == Str(CreateServiceName(AsString(m["service"]).value))
  {
    var withService := if Writes(s, values, "service") then values["service" := Str(target)] else values;
    var service := AsString(withService["service"]).value;
    var named := withService["servicename" := Str(CreateServiceName(service))];
    assert "namespace" in named <==> "namespace" in values;
    var withNamespace :=
      if Writes(s, named, "namespace") then named["namespace" := FromString(s.targetNamespace)] else named;
    assert "prefix" in withNamespace <==> "prefix" in values;
    assert withNamespace["service"] == withService["service"];
    assert withNamespace["servicename"] == Str(CreateServiceName(service));
  }

  /** The merge adds at most the four keys it writes and keeps every other entry. */
  lemma MergeKeepsOtherKeys(s: Settings, target: string, values: map<string, Value>)
    requires MergeBlock(s, target, values).Ok?
    ensures var m := MergeBlock(s, target, values).value;
            && m.Keys == values.Keys + {"service", "servicename", "namespace", "prefix"}
            && forall k :: k in values && k !in {"service", "servicename", "namespace", "prefix"} ==> m[k] == values[k]
  {
    var withService := if Writes(s, values, "service") then values["service" := Str(target)] else values;
    var service := AsString(withService["service"]).value;
    var named := withService["servicename" := Str(CreateServiceName(service))];
    var withNamespace :=
      if Writes(s, named, "namespace") then named["namespace" := FromString(s.targetNamespace)] else named;
    MergeKeys(values, withService, named, withNamespace, MergeBlock(s, target, values).value);
  }

  /** The key set after the four `put`s, one update at a time. */
  lemma MergeKeys(values: map<string, Value>, withService: map<string, Value>, named: map<string, Value>,
                  withNamespace: map<string, Value>, m: map<string, Value>)
    requires withService.Keys == values.Keys + {"service"}
    requires named.Keys == withService.Keys + {"servicename"}
    requires withNamespace.Keys == named.Keys + {"namespace"}
    requires m.Keys == withNamespace.Keys + {"prefix"}
    ensures m.Keys == values.Keys + {"service", "servicename", "namespace", "prefix"}
  {
  }

  /** With a target service, a surviving operation's vendor extensions hold
      the merged map under `x-ambassador` (its own map, or a new empty one,
      merged), and every other extension entry is kept. */
  lemma SurvivorMerged(s: Settings, op: Operation, r: Operation)
    requires s.targetService.Some?
    requires TransformOperation(s, op) == Ok(Some(r))
    ensures !FlaggedIgnore(op)
    ensures MergeBlock(s, s.targetService.value, StartBlock(op)).Ok?
    ensures r.vendorExtensions.Some? && "x-ambassador" in r.vendorExtensions.value
    ensures r.vendorExtensions.value["x-ambassador"] == Block(MergeBlock(s, s.targetService.value, StartBlock(op)).value)
    ensures var before := if op.vendorExtensions.Some? then op.vendorExtensions.value else map[];
            r.vendorExtensions.value.Keys == before.Keys + {"x-ambassador"} &&
            forall k :: k in before && k != "x-ambassador" ==> r.vendorExtensions.value[k] == before[k]
  {
    var extensions := if op.vendorExtensions.Some? then op.vendorExtensions.value else map[];
    var block := AmbassadorBlock(extensions);
    if block.value.Some? {
      assert HasOwnBlock(op);
    }
  }

  /** The list pass succeeds exactly when no single operation throws. */
  lemma {:induction false} PostProcessOkExactly(s: Settings, ops: seq<Operation>)
    ensures PostProcess(s, ops).Ok? <==> forall k :: 0 <= k < |ops| ==> TransformOperation(s, ops[k]).Ok?
    decreases |ops|
  {
    if |ops| > 0 {
      var init := ops[..|ops| - 1];
      PostProcessOkExactly(s, init);
      assert forall k :: 0 <= k < |init| ==> init[k] == ops[k];
    }
  }

  /** An operation the pass removes leaves the result of the prefix as it is. */
  lemma PostProcessDrop(s: Settings, ops: seq<Operation>, i: nat, done: seq<Operation>)
    requires i < |ops|
    requires PostProcess(s, ops[..i]) == Ok(done)
    requires TransformOperation(s, ops[i]) == Ok(None)
    ensures PostProcess(s, ops[..i + 1]) == Ok(done)
  {
    assert ops[..i + 1][..i] == ops[..i];
    assert done + [] == done;
  }

  /** An operation the pass keeps is appended, rewritten, to the prefix's result. */
  lemma PostProcessKeep(s: Settings, ops: seq<Operation>, i: nat, done: seq<Operation>, x: Operation)
    requires i < |ops|
    requires PostProcess(s, ops[..i]) == Ok(done)
    requires TransformOperation(s, ops[i]) == Ok(Some(x))
    ensures PostProcess(s, ops[..i + 1]) == Ok(done + [x])
  {
    assert ops[..i + 1][..i] == ops[..i];
  }

  /** An operation that throws makes the whole list pass throw. */
  lemma PostProcessThrowsAt(s: Settings, ops: seq<Operation>, i: nat)
    requires i < |ops|
    requires TransformOperation(s, ops[i]) == Throws
    ensures PostProcess(s, ops) == Throws
  {
    PostProcessOkExactly(s, ops);
  }

  /** Appending a larger position keeps a position list strictly increasing. */
  lemma AppendIndex(prev: seq<nat>, n: nat)
    requires forall k :: 0 <= k < |prev| ==> prev[k] < n
    requires forall k, l :: 0 <= k < l < |prev| ==> prev[k] < prev[l]
    ensures forall k, l :: 0 <= k < l < |prev + [n]| ==> (prev + [n])[k] < (prev + [n])[l]
    ensures forall j :: j in prev + [n] <==> j in prev || j == n
  {
  }

  /** The surviving operations in input order: `idx` lists, strictly
      increasing, the positions of exactly the operations that are not
      removed, and the output holds their transformed versions. Nothing is
      added and nothing is reordered. */
  lemma {:induction false} SurvivorsInOrder(s: Settings, ops: seq<Operation>) returns (idx: seq<nat>)
    requires PostProcess(s, ops).Ok?
    ensures |idx| == |PostProcess(s, ops).value| <= |ops|
    ensures forall k :: 0 <= k < |idx| ==>
              idx[k] < |ops| && TransformOperation(s, ops[idx[k]]) == Ok(Some(PostProcess(s, ops).value[k]))
    ensures forall k, l :: 0 <= k < l < |idx| ==> idx[k] < idx[l]
    ensures forall j :: j in idx <==> 0 <= j < |ops| && Kept(s, ops[j])
    decreases |ops|
  {
    if |ops| == 0 {
      idx := [];
    } else {
      var n := |ops| - 1;
      var init := ops[..n];
      var prev := SurvivorsInOrder(s, init);
      assert forall k :: 0 <= k < n ==> init[k] == ops[k];
      var done := PostProcess(s, init).value;
      var step := TransformOperation(s, ops[n]).value;
      assert ops[..n + 1] == ops;
      if step.Some? {
        PostProcessKeep(s, ops, n, done, step.value);
        AppendIndex(prev, n);
        idx := prev + [n];
      } else {
        PostProcessDrop(s, ops, n, done);
        idx := prev;
      }
    }
  }

  /** `/users/{id}` under the base path `/v1` becomes `/v1/users/{.*}`. */
  lemma PathUnderBasePath(s: Settings, op: Operation, r: Operation)
    requires s.basePath == "/v1" && op.path == "/users/{id}"
    requires TransformOperation(s, op) == Ok(Some(r))
    ensures r.path == "/v1/users/{.*}"
  {
    SurvivorRewritten(s, op, r);
    PrefixedRewrite(s.basePath, op.path);
  }

  lemma PrefixedRewrite(basePath: string, path: string)
    requires basePath == "/v1" && path == "/users/{id}"
    ensures basePath + ReplacePlaceholders(path) == "/v1/users/{.*}"
  {
    RewriteOneParameter(path);
    Prefixed(basePath, ReplacePlaceholders(path));
  }

  lemma Prefixed(basePath: string, rewritten: string)
    requires basePath == "/v1" && rewritten == "/users/{.*}"
    ensures basePath + rewritten == "/v1/users/{.*}"
  {
  }

  /** Without override, an operation's own `service: "legacy"` survives a
      caller target of `"new"`; with override the caller's target replaces it. */
  lemma LegacyServiceRetained(s: Settings, op: Operation, r: Operation)
    requires s.targetService == Some("new")
    requires op.vendorExtensions == Some(map["x-ambassador" := Block(map["service" := Str("legacy")])])
    requires TransformOperation(s, op) == Ok(Some(r))
    ensures r.vendorExtensions.Some? && "x-ambassador" in r.vendorExtensions.value
    ensures var block := r.vendorExtensions.value["x-ambassador"];
            block.Block? && "service" in block.entries &&
            block.entries["service"] == if s.overrideExtensions then Str("new") else Str("legacy")
  {
    SurvivorMerged(s, op, r);
    assert StartBlock(op) == map["service" := Str("legacy")];
    MergeWritesFields(s, "new", StartBlock(op));
  }

  /** A namespace set in the document's root block reaches every operation
      that has no namespace of its own (or when extensions are overridden),
      as long as the caller did not shield the fields. */
  lemma DocumentNamespaceReachesOperations(s: Settings, doc: OpenApi, urlPath: string -> Option<string>,
                                           values: map<string, Value>, ns: string, g: Settings,
                                           op: Operation, r: Operation)
    requires s.targetService.None? || !s.overrideExtensions
    requires doc.extensions.Some? && "x-ambassador" in doc.extensions.value
    requires doc.extensions.value["x-ambassador"] == Block(values)
    requires "namespace" in values && values["namespace"] == Str(ns)
    requires Preprocess(s, doc, urlPath) == Ok(g)
    requires g.targetService.Some?
    requires TransformOperation(g, op) == Ok(Some(r))
    requires "namespace" !in StartBlock(op) || g.overrideExtensions
    ensures r.vendorExtensions.Some? && "x-ambassador" in r.vendorExtensions.value
    ensures var block := r.vendorExtensions.value["x-ambassador"];
            block.Block? && "namespace" in block.entries && block.entries["namespace"] == Str(ns)
  {
    var t := s.(basePath := InitialBasePath(s.basePath, doc.servers, urlPath));
    RootBlockKeyPrecedence(t, doc.extensions.value, values);
    assert g.targetNamespace == Some(ns);
    SurvivorMerged(g, op, r);
    MergeWritesFields(g, g.targetService.value, StartBlock(op));
  }
}
