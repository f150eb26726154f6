/** `createServiceName`: the short service name derived from a service
    address, by stripping the scheme, then the port, then the last domain label. */
module ServiceNames {
  import opened Values
  import opened JavaStrings

  /** Drops everything through the first "://", wherever it occurs (index 0 included). */
  function StripScheme(s: string): (r: string) {
    var ix := IndexOf(s, "://");
    if ix >= 0 then s[ix + 3..] else s
  }

  /** What is left after the scheme is a suffix of the address: all of it when
      there is no "://", and what follows the first "://" otherwise. */
  lemma StripSchemeIsSuffix(s: string)
    ensures var r := StripScheme(s);
            && |r| <= |s| && r == s[|s| - |r|..]
            && ((forall i :: 0 <= i <= |s| ==> !OccursAt(s, "://", i)) ==> r == s)
            && forall i :: OccursAt(s, "://", i) && (forall k :: 0 <= k < i ==> !OccursAt(s, "://", k)) ==>
                 r == s[i + 3..]
  {
  }

  /** Cuts `s` just before the last occurrence of `c`, unless that occurrence
      is at index 0 or there is none. */
  function CutAtLast(s: string, c: char): (r: string) {
    var ix := LastIndexOfChar(s, c);
    if ix > 0 then s[..ix] else s
  }

  /** The cut leaves a prefix: all of `s` when `c` does not occur after index
      0, and otherwise a non-empty prefix ending just before the last `c`. */
  lemma CutAtLastIsPrefix(s: string, c: char)
    ensures var r := CutAtLast(s, c);
            && |r| <= |s| && r == s[..|r|]
            && ((forall j :: 0 < j < |s| ==> s[j] != c) ==> r == s)
            && ((exists j :: 0 < j < |s| && s[j] == c) ==>
                  0 < |r| < |s| && s[|r|] == c && forall j :: |r| < j < |s| ==> s[j] != c)
  {
  }

  /** The generator's `createServiceName`: null gives "", otherwise the scheme,
      the port and the last domain label are removed in that order. */
  function CreateServiceName(service: Option<string>): (r: string)
    ensures service == None ==> r == ""
    ensures service.Some? ==> |r| <= |service.value|
  {
    match service
    case None => ""
    case Some(s) => CutAtLast(CutAtLast(StripScheme(s), ':'), '.')
  }

  /** The service name is always a contiguous piece of the address. */
  lemma ServiceNameIsSubstring(s: string)
    ensures exists i, j :: 0 <= i <= j <= |s| && CreateServiceName(Some(s)) == s[i..j]
  {
    var a := StripScheme(s);
    var b := CutAtLast(a, ':');
    var c := CutAtLast(b, '.');
    StripSchemeLength(s);
    CutAtLastLength(a, ':');
    CutAtLastLength(b, '.');
    PrefixOfSuffix(s, a, b, c);
    assert CreateServiceName(Some(s)) == c;
  }

  /** The part left after the scheme is the address' own suffix. */
  lemma StripSchemeLength(s: string)
    ensures |StripScheme(s)| <= |s| && StripScheme(s) == s[|s| - |StripScheme(s)|..]
  {
  }

  /** The cut is a prefix of the string. */
  lemma CutAtLastLength(s: string, c: char)
    ensures |CutAtLast(s, c)| <= |s| && CutAtLast(s, c) == s[..|CutAtLast(s, c)|]
  {
  }

  /** A prefix of a prefix of a suffix is a slice. */
  lemma PrefixOfSuffix(s: string, a: string, b: string, c: string)
    requires |a| <= |s| && a == s[|s| - |a|..]
    requires |b| <= |a| && b == a[..|b|]
    requires |c| <= |b| && c == b[..|c|]
    ensures c == s[|s| - |a|..|s| - |a| + |c|]
  {
    assert c == a[..|c|];
  }

  /** An address in which no ':' is followed by '/' has no scheme to strip. */
  lemma NoSeparatorNoScheme(s: string)
    requires forall j :: 0 <= j < |s| - 1 ==> !(s[j] == ':' && s[j + 1] == '/')
    ensures StripScheme(s) == s
  {
    forall i | 0 <= i <= |s| ensures !OccursAt(s, "://", i) {
      assert i + 3 <= |s| ==> s[i..i + 3][0] == s[i] && s[i..i + 3][1] == s[i + 1];
    }
  }

  /** The scheme is everything before the first "://", so when the part before
      the separator has no ':', what follows the separator is what remains. */
  lemma SchemeStripped(scheme: string, rest: string)
    requires forall j :: 0 <= j < |scheme| ==> scheme[j] != ':'
    ensures StripScheme(scheme + "://" + rest) == rest
  {
    var s := scheme + "://" + rest;
    assert s[|scheme|..|scheme| + 3] == "://";
    forall k | 0 <= k < |scheme| ensures !OccursAt(s, "://", k) {
      assert k + 3 <= |s| ==> s[k..k + 3][0] == s[k];
    }
    assert OccursAt(s, "://", |scheme|);
    assert IndexOf(s, "://") == |scheme|;
    assert s[|scheme| + 3..] == rest;
  }

  /** Cutting at the last `c` keeps exactly what precedes it. */
  lemma CutAtLastSplit(a: string, c: char, b: string)
    requires |a| > 0
    requires forall j :: 0 <= j < |b| ==> b[j] != c
    ensures CutAtLast(a + [c] + b, c) == a
  {
    var s := a + [c] + b;
    assert s[|a|] == c;
    assert forall j :: |a| < j < |s| ==> s[j] == b[j - |a| - 1];
    assert s[..|a|] == a;
  }

  /** When the address has no scheme separator and neither ':' nor '.' after
      its first character, it is its own service name. */
  lemma PlainNameIsFixed(s: string)
    requires forall i :: 0 <= i <= |s| ==> !OccursAt(s, "://", i)
    requires forall j :: 0 < j < |s| ==> s[j] != ':' && s[j] != '.'
    ensures CreateServiceName(Some(s)) == s
  {
  }

  /** An address `scheme://host.domain:port` is named `host`, when the scheme has
      no ':', and the last domain label and the port contain neither ':' nor '.'. */
  lemma ServiceNameOfAddress(scheme: string, host: string, domain: string, port: string)
    requires |host| > 0
    requires forall j :: 0 <= j < |scheme| ==> scheme[j] != ':'
    requires forall j :: 0 <= j < |domain| ==> domain[j] != ':' && domain[j] != '.'
    requires forall j :: 0 <= j < |port| ==> port[j] != ':' && port[j] != '.'
    ensures CreateServiceName(Some(scheme + "://" + host + "." + domain + ":" + port)) == host
  {
    var rest := host + "." + domain + ":" + port;
    assert scheme + "://" + host + "." + domain + ":" + port == scheme + "://" + rest;
    SchemeStripped(scheme, rest);
    assert rest == (host + "." + domain) + [':'] + port;
    CutAtLastSplit(host + "." + domain, ':', port);
    assert host + "." + domain == host + ['.'] + domain;
    CutAtLastSplit(host, '.', domain);
  }

  /** Null has the empty name; a bare name is its own name. */
  lemma ServiceNameOfBareName(name: string)
    requires name == "foo"
    ensures CreateServiceName(None) == ""
    ensures CreateServiceName(Some(name)) == "foo"
  {
    NoSeparatorNoScheme(name);
  }

  /** `grpc://foo.default.svc:8080` is named `foo.default`: only the last
      domain label goes, because `lastIndexOf` is used. */
  lemma ServiceNameOfShortAddress(address: string)
    requires address == "grpc://foo.default.svc:8080"
    ensures CreateServiceName(Some(address)) == "foo.default"
  {
    ShortAddressParts(address);
    ServiceNameOfAddress("grpc", "foo.default", "svc", "8080");
  }

  /** The parts of the short address. */
  lemma ShortAddressParts(address: string)
    requires address == "grpc://foo.default.svc:8080"
    ensures address == "grpc" + "://" + "foo.default" + "." + "svc" + ":" + "8080"
  {
  }

  /** A fully qualified cluster address keeps every label but the last. */
  lemma ServiceNameOfClusterAddress(address: string)
    requires address == "grpc://foo.default.svc.cluster.local:8080"
    ensures CreateServiceName(Some(address)) == "foo.default.svc.cluster"
  {
    ClusterAddressParts(address);
    ServiceNameOfAddress("grpc", "foo.default.svc.cluster", "local", "8080");
  }

  /** The parts of the cluster address. */
  lemma ClusterAddressParts(address: string)
    requires address == "grpc://foo.default.svc.cluster.local:8080"
    ensures address == "grpc" + "://" + "foo.default.svc.cluster" + "." + "local" + ":" + "8080"
  {
  }

  /** A separator at index 0 is still stripped. */
  lemma SchemeAtIndexZero(address: string)
    requires address == "://x"
    ensures CreateServiceName(Some(address)) == "x"
  {
    assert address == "" + "://" + "x";
    SchemeStripped("", "x");
  }

  /** A ':' at index 0 is never taken for a port. */
  lemma ColonAtIndexZero(address: string)
    requires address == ":8080"
    ensures CreateServiceName(Some(address)) == ":8080"
  {
    NoSeparatorNoScheme(address);
  }

  /** A name `host.domain` without any ':' loses its last label. */
  lemma ServiceNameOfDottedName(host: string, domain: string)
    requires |host| > 0
    requires forall j :: 0 <= j < |host| ==> host[j] != ':'
    requires forall j :: 0 <= j < |domain| ==> domain[j] != ':' && domain[j] != '.'
    ensures CreateServiceName(Some(host + "." + domain)) == host
  {
    var s := host + "." + domain;
    assert forall j :: 0 <= j < |s| ==> s[j] != ':';
    NoSeparatorNoScheme(s);
    assert s == host + ['.'] + domain;
    CutAtLastSplit(host, '.', domain);
  }

  /** Applying the function to its own result can shorten it again:
      `grpc://foo.default.svc:8080` is named `foo.default`, which is named `foo`. */
  lemma ServiceNameNotIdempotent(address: string)
    requires address == "grpc://foo.default.svc:8080"
    ensures CreateServiceName(Some(address)) == "foo.default"
    ensures CreateServiceName(Some(CreateServiceName(Some(address)))) == "foo"
  {
    ServiceNameOfShortAddress(address);
    ServiceNameOfFooDefault(CreateServiceName(Some(address)));
  }

  /** `foo.default` is named `foo`. */
  lemma ServiceNameOfFooDefault(name: string)
    requires name == "foo.default"
    ensures CreateServiceName(Some(name)) == "foo"
  {
    assert name == "foo" + "." + "default";
    ServiceNameOfDottedName("foo", "default");
  }
}
