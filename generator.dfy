/** The generator object: its configuration fields, the document pass that
    updates them, and the operation pass that rewrites and filters the
    operation list in place. */
module Generator {
  import opened Values
  import opened Config
  import opened ServiceNames
  import opened PathPatterns
  import opened JavaStrings
  import opened DocumentDefaults
  import opened Operations

  /** `list.remove(o)` on a Java list of references: the first element equal
      to `x` is taken out, and the list is unchanged when there is none. */
  function RemoveFirst(xs: seq<int>, x: int): (r: seq<int>)
    ensures x !in xs ==> r == xs
    ensures x in xs ==> |r| == |xs| - 1
  {
    if |xs| == 0 then []
    else if xs[0] == x then xs[1..]
    else [xs[0]] + RemoveFirst(xs[1..], x)
  }

  /** When the reference occurs, exactly its first occurrence is taken out and
      the other elements keep their order. */
  lemma {:induction false} RemoveFirstContents(xs: seq<int>, x: int)
    requires x in xs
    ensures exists a, b :: xs == a + [x] + b && x !in a && RemoveFirst(xs, x) == a + b
    decreases |xs|
  {
    if xs[0] == x {
      var a: seq<int>, b := [], xs[1..];
      assert xs == a + [x] + b && x !in a && RemoveFirst(xs, x) == a + b;
    } else {
      var h, t := xs[0], xs[1..];
      assert xs == [h] + t;
      RemoveFirstContents(t, x);
      var a, b :| t == a + [x] + b && x !in a && RemoveFirst(t, x) == a + b;
      RemoveFirstCons(h, t, x);
      ConsSplit(h, a, x, b);
      assert xs == ([h] + a) + [x] + b && x !in [h] + a && RemoveFirst(xs, x) == ([h] + a) + b;
    }
  }

  /** A head that differs from the reference stays in front. */
  lemma RemoveFirstCons(h: int, t: seq<int>, x: int)
    requires h != x
    ensures RemoveFirst([h] + t, x) == [h] + RemoveFirst(t, x)
  {
    assert ([h] + t)[1..] == t;
  }

  /** Putting a different value in front of the parts. */
  lemma ConsSplit(h: int, a: seq<int>, x: int, b: seq<int>)
    requires h != x && x !in a
    ensures [h] + (a + [x] + b) == ([h] + a) + [x] + b
    ensures [h] + (a + b) == ([h] + a) + b
    ensures x !in [h] + a
  {
  }

  /** Removing a reference that does not occur before position `|a|` takes
      out exactly that position. */
  lemma {:induction false} RemoveFirstAt(a: seq<int>, x: int, b: seq<int>)
    requires x !in a
    ensures RemoveFirst(a + [x] + b, x) == a + b
    decreases |a|
  {
    if |a| == 0 {
      assert a + [x] + b == [x] + b;
    } else {
      assert (a + [x] + b)[1..] == a[1..] + [x] + b;
      RemoveFirstAt(a[1..], x, b);
      assert a == [a[0]] + a[1..];
    }
  }

  /** The references `lo`, `lo + 1`, ..., `hi - 1`. */
  function Range(lo: int, hi: int): (r: seq<int>)
    requires lo <= hi
    ensures |r| == hi - lo && forall k :: 0 <= k < |r| ==> r[k] == lo + k
  {
    seq(hi - lo, k => lo + k)
  }

  /** The objects a list of references points to. */
  function Deref(objects: seq<Operation>, refs: seq<int>): (r: seq<Operation>)
    requires forall k :: 0 <= k < |refs| ==> 0 <= refs[k] < |objects|
    ensures |r| == |refs| && forall k :: 0 <= k < |r| ==> r[k] == objects[refs[k]]
  {
    seq(|refs|, k requires 0 <= k < |refs| => objects[refs[k]])
  }

  /** Taking the current reference out of the live list leaves the kept
      references followed by those not yet visited. */
  lemma RemoveCurrent(kept: seq<int>, i: int, n: int)
    requires i < n
    requires forall k :: 0 <= k < |kept| ==> kept[k] < i
    ensures RemoveFirst(kept + Range(i, n), i) == kept + Range(i + 1, n)
  {
    assert kept + Range(i, n) == kept + [i] + Range(i + 1, n);
    RemoveFirstAt(kept, i, Range(i + 1, n));
  }

  /** Keeping the current reference moves it to the kept part. */
  lemma KeepCurrent(kept: seq<int>, i: int, n: int)
    requires i < n
    ensures kept + Range(i, n) == (kept + [i]) + Range(i + 1, n)
  {
    assert Range(i, n) == [i] + Range(i + 1, n);
  }

  /** Rewriting the current object in place leaves the kept ones alone. */
  lemma DerefExtend(objects: seq<Operation>, kept: seq<int>, i: int, x: Operation)
    requires 0 <= i < |objects|
    requires forall k :: 0 <= k < |kept| ==> 0 <= kept[k] < i
    ensures Deref(objects[i := x], kept + [i]) == Deref(objects, kept) + [x]
  {
  }

  class AmbassadorGenerator {
    var basePath: string
    var targetService: Option<string>
    var overrideExtensions: bool
    var targetNamespace: Option<string>
    var servicePrefix: Option<string>
    var ignoreOperations: set<string>

    /** The six fields as one configuration record. */
    function Fields(): Settings
      reads this
    {
      Settings(basePath, targetService, overrideExtensions, targetNamespace, servicePrefix, ignoreOperations)
    }

    /** A new generator holds the field initialisers, with an empty ignore set. */
    constructor()
      ensures Fields() == Defaults
    {
      basePath := "";
      targetService := None;
      overrideExtensions := false;
      targetNamespace := Some("ambassador");
      servicePrefix := Some("");
      ignoreOperations := {};
    }

    /** `processOpts`, on options that are already parsed: a given option
        replaces its field, and an absent ignore list installs the empty set. */
    method ProcessOpts(o: Options)
      modifies this
      ensures Fields() == ApplyOptions(old(Fields()), o)
    {
      if o.targetService.Some? {
        targetService := o.targetService;
      }
      if o.targetNamespace.Some? {
        targetNamespace := o.targetNamespace;
      }
      if o.servicePrefix.Some? {
        servicePrefix := o.servicePrefix;
      }
      if o.ignoreOperations.Some? {
        ignoreOperations := o.ignoreOperations.value;
      } else {
        ignoreOperations := {};
      }
      if o.overrideExtensions.Some? {
        overrideExtensions := o.overrideExtensions.value;
      }
    }

    /** `initializeBasePath`: only the base path changes, as the first server says. */
    method InitializeBasePath(servers: Option<seq<string>>, urlPath: string -> Option<string>)
      modifies this`basePath
      ensures basePath == InitialBasePath(old(basePath), servers, urlPath)
    {
      if servers.Some? && |servers.value| > 0 {
        var url := servers.value[0];
        if StartsWithSlash(url) {
          basePath := url;
        } else {
          match urlPath(url)
          case Some(path) => basePath := path;
          case None =>
        }
      }
    }

    /** `preprocessOpenAPI`: the base path, then the root `x-ambassador` block.
        `thrown` reports the exception a malformed block raises; the fields
        assigned before it stay assigned, the base path among them. */
    method PreprocessOpenAPI(doc: OpenApi, urlPath: string -> Option<string>) returns (thrown: bool)
      modifies this
      ensures thrown <==> Preprocess(old(Fields()), doc, urlPath) == Throws
      ensures !thrown ==> Fields() == Preprocess(old(Fields()), doc, urlPath).value
      ensures thrown ==> basePath == InitialBasePath(old(basePath), doc.servers, urlPath) &&
                         overrideExtensions == old(overrideExtensions) && ignoreOperations == old(ignoreOperations)
    {
      InitializeBasePath(doc.servers, urlPath);
      thrown := false;
      if targetService.None? || !overrideExtensions {
        if doc.extensions.Some? && "x-ambassador" in doc.extensions.value {
          match doc.extensions.value["x-ambassador"]
          case Scalar(_) =>
            thrown := true;
          case Block(values) =>
            if "service" in values {
              var service := AsString(values["service"]);
              if service.Throws? {
                return true;
              }
              targetService := service.value;
            }
            if "namespace" in values {
              var namespace := AsString(values["namespace"]);
              if namespace.Throws? {
                return true;
              }
              targetNamespace := namespace.value;
            }
            if "prefix" in values {
              var prefix := AsString(values["prefix"]);
              if prefix.Throws? {
                return true;
              }
              servicePrefix := prefix.value;
            }
        }
      }
    }

    /** The body of the loop of `postProcessOperations` for one operation:
        `None` when the operation is to be removed from the list. */
    method ProcessOperation(op: Operation) returns (outcome: Read<Option<Operation>>)
      ensures outcome == TransformOperation(Fields(), op)
    {
      if op.operationId in ignoreOperations {
        return Ok(None);
      }
      var current := op.(path := basePath + ReplacePlaceholders(op.path));
      current := current.(operationId := ToLowerCase(current.operationId));
      if targetService.Some? {
        var extensions := map[];
        if current.vendorExtensions.Some? {
          extensions := current.vendorExtensions.value;
        }
        var block := AmbassadorBlock(extensions);
        if block.Throws? {
          return Throws;
        }
        var values := map[];
        if block.value.Some? {
          if Get(block.value.value, "ignore") == Bool(true) {
            return Ok(None);
          }
          values := block.value.value;
        }
        if overrideExtensions || "service" !in values {
          values := values["service" := Str(targetService.value)];
        }
        var service := AsString(values["service"]);
        if service.Throws? {
          return Throws;
        }
        values := values["servicename" := Str(CreateServiceName(service.value))];
        if overrideExtensions || "namespace" !in values {
          values := values["namespace" := FromString(targetNamespace)];
        }
        if overrideExtensions || "prefix" !in values {
          values := values["prefix" := FromString(servicePrefix)];
        }
        current := current.(vendorExtensions := Some(extensions["x-ambassador" := Block(values)]));
      }
      outcome := Ok(Some(current));
    }

    /** `postProcessOperations`: the operation objects are addressed by their
        position in the snapshot, `list` holds the live list's references, an
        operation is rewritten in place and a removed one is taken out of the
        live list by reference. An exception ends the pass. */
    method PostProcessOperations(operations: seq<Operation>) returns (result: Read<seq<Operation>>)
      ensures result == PostProcess(Fields(), operations)
    {
      var n := |operations|;
      var objects := operations;
      var list := Range(0, n);
      ghost var kept: seq<int> := [];
      var i := 0;
      while i < n
        invariant 0 <= i <= n && |objects| == n
        invariant forall j :: i <= j < n ==> objects[j] == operations[j]
        invariant forall k :: 0 <= k < |kept| ==> 0 <= kept[k] < i
        invariant list == kept + Range(i, n)
        invariant PostProcess(Fields(), operations[..i]) == Ok(Deref(objects, kept))
      {
        var outcome := ProcessOperation(objects[i]);
        assert objects[i] == operations[i];
        if outcome.Throws? {
          PostProcessThrowsAt(Fields(), operations, i);
          return Throws;
        }
        if outcome.value.None? {
          PostProcessDrop(Fields(), operations, i, Deref(objects, kept));
          RemoveCurrent(kept, i, n);
          list := RemoveFirst(list, i);
        } else {
          PostProcessKeep(Fields(), operations, i, Deref(objects, kept), outcome.value.value);
          KeepCurrent(kept, i, n);
          DerefExtend(objects, kept, i, outcome.value.value);
          objects := objects[i := outcome.value.value];
          kept := kept + [i];
        }
        i := i + 1;
      }
      assert operations[..n] == operations;
      assert list == kept + [];
      assert list == kept;
      result := Ok(Deref(objects, list));
    }
  }
}
