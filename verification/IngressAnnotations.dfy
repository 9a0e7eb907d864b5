/**
 Ingress settings on their way from command line flags, through a config map that the command line
 tool writes, to the reconciler that reads it. The annotations travel as one string.
 */
module IngressAnnotations {
  import opened Wrappers

  // ---- Strings ----

  /** The Unicode white space characters. */
  predicate IsSpace(c: char) {
    || '\U{0009}' <= c <= '\U{000D}' || c == ' ' || c == '\U{0085}' || c == '\U{00A0}' || c == '\U{1680}'
    || '\U{2000}' <= c <= '\U{200A}' || c == '\U{2028}' || c == '\U{2029}' || c == '\U{202F}'
    || c == '\U{205F}' || c == '\U{3000}'
  }

  predicate IsTrimmed(s: string) {
    s != "" ==> !IsSpace(s[0]) && !IsSpace(s[|s| - 1])
  }

  function Trim(s: string): (r: string)
    ensures IsTrimmed(r) && (IsTrimmed(s) ==> r == s)
    ensures forall c <- r :: c in s
    decreases |s|
  {
    if s == "" then s
    else if IsSpace(s[0]) then Trim(s[1..])
    else if IsSpace(s[|s| - 1]) then Trim(s[..|s| - 1])
    else s
  }

  /** The characters one by one. */
  lemma SpacesListed(c: char)
    ensures IsSpace(c) <==>
            || c in "\t\n\U{000B}\U{000C}\r \U{0085}\U{00A0}\U{1680}\U{2028}\U{2029}\U{202F}\U{205F}\U{3000}"
            || c in "\U{2000}\U{2001}\U{2002}\U{2003}\U{2004}\U{2005}\U{2006}\U{2007}\U{2008}\U{2009}\U{200A}"
  {
  }

  /** Trimming takes white space off both ends, and nothing else. */
  lemma {:induction false} TrimCuts(s: string) returns (before: string, after: string)
    ensures s == before + Trim(s) + after && IsTrimmed(Trim(s))
    ensures (forall c <- before :: IsSpace(c)) && (forall c <- after :: IsSpace(c))
    decreases |s|
  {
    before, after := "", "";
    hide IsSpace;
    if s != "" && IsSpace(s[0]) {
      before, after := TrimCuts(s[1..]);
      before := [s[0]] + before;
    } else if s != "" && IsSpace(s[|s| - 1]) {
      before, after := TrimCuts(s[..|s| - 1]);
      after := after + [s[|s| - 1]];
    }
  }

  /** The pieces between separators; at least one. */
  function Split(s: string, sep: char): (r: seq<string>)
    ensures r != []
    ensures forall piece <- r :: sep !in piece
  {
    if s == "" then [""]
    else
      var rest := Split(s[1..], sep);
      if s[0] == sep then [""] + rest else [[s[0]] + rest[0]] + rest[1..]
  }

  /** What comes before and after the first separator. */
  function Cut(s: string, sep: char): (r: Option<(string, string)>)
    ensures r.None? <==> sep !in s
    ensures r.Some? ==> s == r.value.0 + [sep] + r.value.1 && sep !in r.value.0
  {
    if s == "" then None
    else if s[0] == sep then Some(("", s[1..]))
    else match Cut(s[1..], sep)
      case None => None
      case Some((before, after)) => Some(([s[0]] + before, after))
  }

  function Join(parts: seq<string>, sep: char): string {
    if parts == [] then ""
    else if |parts| == 1 then parts[0]
    else parts[0] + [sep] + Join(parts[1..], sep)
  }

  lemma {:induction false} SplitHead(a: string, s: string, sep: char)
    requires sep !in a
    ensures Split(a, sep) == [a]
    ensures Split(a + [sep] + s, sep) == [a] + Split(s, sep)
    decreases |a|
  {
    if a == "" {
      assert a + [sep] + s == [sep] + s;
      assert ([sep] + s)[1..] == s;
    } else {
      SplitHead(a[1..], s, sep);
      assert (a + [sep] + s)[1..] == a[1..] + [sep] + s;
      assert [a[0]] + a[1..] == a;
    }
  }

  lemma {:induction false} SplitJoin(parts: seq<string>, sep: char)
    requires parts != [] && forall p <- parts :: sep !in p
    ensures Split(Join(parts, sep), sep) == parts
    decreases |parts|
  {
    if |parts| == 1 {
      SplitHead(parts[0], "", sep);
    } else {
      assert parts[0] in parts;
      SplitJoin(parts[1..], sep);
      SplitHead(parts[0], Join(parts[1..], sep), sep);
      assert [parts[0]] + parts[1..] == parts;
    }
  }

  lemma {:induction false} CutPair(k: string, v: string, sep: char)
    requires sep !in k
    ensures Cut(k + [sep] + v, sep) == Some((k, v))
    decreases |k|
  {
    if k == "" {
      assert k + [sep] + v == [sep] + v;
    } else {
      CutPair(k[1..], v, sep);
      assert (k + [sep] + v)[1..] == k[1..] + [sep] + v;
      assert [k[0]] + k[1..] == k;
    }
  }

  // ---- Pairs to map ----

  /** Later pairs overwrite earlier ones; a piece without '=' is left out. */
  function Collect(pieces: seq<string>): map<string, string> {
    if pieces == [] then map[]
    else
      var m := Collect(pieces[..|pieces| - 1]);
      match Cut(pieces[|pieces| - 1], '=')
      case Some((k, v)) => m[Trim(k) := Trim(v)]
      case None => m
  }

  /** The piece has a '=', and what stands before the first one trims to k. */
  predicate Names(piece: string, k: string) {
    Cut(piece, '=').Some? && Trim(Cut(piece, '=').value.0) == k
  }

  /** No piece after the i-th one names k. */
  predicate LastNames(pieces: seq<string>, i: nat, k: string)
    requires i < |pieces|
  {
    Names(pieces[i], k) && forall j :: i < j < |pieces| ==> !Names(pieces[j], k)
  }

  lemma CollectStep(pieces: seq<string>, k: string)
    requires pieces != []
    ensures var n := |pieces| - 1;
            var before, after := Collect(pieces[..n]), Collect(pieces);
            && (k in after <==> k in before || Names(pieces[n], k))
            && (Names(pieces[n], k) ==> after[k] == Trim(Cut(pieces[n], '=').value.1))
            && (k in before && !Names(pieces[n], k) ==> after[k] == before[k])
  {
    hide Cut, Trim;
  }

  /** The keys are those named by some piece. */
  lemma {:induction false} CollectKeys(pieces: seq<string>, k: string)
    ensures k in Collect(pieces) <==> exists piece <- pieces :: Names(piece, k)
    decreases |pieces|
  {
    if pieces != [] {
      var n := |pieces| - 1;
      CollectKeys(pieces[..n], k);
      CollectStep(pieces, k);
      hide *;
      assert pieces[n] in pieces && forall piece <- pieces[..n] :: piece in pieces;
      if piece :| piece in pieces && Names(piece, k) {
        assert piece in pieces[..n] || piece == pieces[n];
      }
    }
  }

  /** The last piece that names a key gives its value. */
  lemma {:induction false} CollectLast(pieces: seq<string>, i: nat, k: string)
    requires i < |pieces| && LastNames(pieces, i, k)
    ensures k in Collect(pieces) && Collect(pieces)[k] == Trim(Cut(pieces[i], '=').value.1)
    decreases |pieces|
  {
    var n := |pieces| - 1;
    CollectStep(pieces, k);
    hide Collect, Names, Trim;
    if i < n {
      assert !Names(pieces[n], k);
      CollectLast(pieces[..n], i, k);
    }
  }

  /** The flag values, one by one. */
  method ParseFlags(flags: seq<string>) returns (annotations: map<string, string>)
    ensures annotations == Collect(flags)
    ensures forall k :: k in annotations <==> exists flag <- flags :: Names(flag, k)
    ensures forall i, k :: 0 <= i < |flags| && LastNames(flags, i, k) ==>
              k in annotations && annotations[k] == Trim(Cut(flags[i], '=').value.1)
  {
    forall k ensures k in Collect(flags) <==> exists flag <- flags :: Names(flag, k) {
      CollectKeys(flags, k);
    }
    forall i, k | 0 <= i < |flags| && LastNames(flags, i, k)
      ensures k in Collect(flags) && Collect(flags)[k] == Trim(Cut(flags[i], '=').value.1)
    {
      CollectLast(flags, i, k);
    }
    annotations := map[];
    for i := 0 to |flags|
      invariant annotations == Collect(flags[..i])
    {
      assert flags[..i + 1][..i] == flags[..i];
      var cut := Cut(flags[i], '=');
      if cut.Some? {
        annotations := annotations[Trim(cut.value.0) := Trim(cut.value.1)];
      }
    }
    assert flags[..|flags|] == flags;
  }

  predicate CleanKey(k: string) { ',' !in k && '=' !in k && IsTrimmed(k) }

  predicate CleanValue(v: string) { ',' !in v && IsTrimmed(v) }

  /** Keys and values that the string form can carry. */
  predicate Clean(m: map<string, string>) {
    forall k <- m :: CleanKey(k) && CleanValue(m[k])
  }

  /** The reader only ever produces clean maps. */
  lemma {:induction false} CollectClean(pieces: seq<string>)
    requires forall p <- pieces :: ',' !in p
    ensures Clean(Collect(pieces))
    decreases |pieces|
  {
    if pieces != [] {
      var n := |pieces| - 1;
      CollectClean(pieces[..n]);
      assert pieces[n] in pieces;
      var cut := Cut(pieces[n], '=');
      if cut.Some? {
        assert forall c <- cut.value.0 :: c in pieces[n];
        assert forall c <- cut.value.1 :: c in pieces[n];
      }
    }
  }

  // ---- Map to string and back ----

  /** An order in which the entries of a map may be enumerated. */
  ghost predicate Enumerates(keys: seq<string>, m: map<string, string>) {
    && (forall k :: k in keys <==> k in m)
    && forall i, j :: 0 <= i < j < |keys| ==> keys[i] != keys[j]
  }

  function Pair(k: string, v: string): string { k + "=" + v }

  function Pairs(keys: seq<string>, m: map<string, string>): seq<string>
    requires forall k <- keys :: k in m
  {
    seq(|keys|, i requires 0 <= i < |keys| => Pair(keys[i], m[keys[i]]))
  }

  lemma {:induction false} CollectPairs(keys: seq<string>, m: map<string, string>)
    requires forall k <- keys :: k in m && CleanKey(k) && CleanValue(m[k])
    requires forall i, j :: 0 <= i < j < |keys| ==> keys[i] != keys[j]
    ensures Collect(Pairs(keys, m)) == map k | k in keys :: m[k]
    decreases |keys|
  {
    if keys != [] {
      var n := |keys| - 1;
      assert Pairs(keys, m)[..n] == Pairs(keys[..n], m);
      CollectPairs(keys[..n], m);
      assert keys[n] in keys;
      CutPair(keys[n], m[keys[n]], '=');
      assert forall k :: k in keys <==> k in keys[..n] || k == keys[n];
    }
  }

  function Parse(s: string): map<string, string> { Collect(Split(s, ',')) }

  lemma PairsCommaFree(keys: seq<string>, m: map<string, string>)
    requires forall k <- keys :: k in m && CleanKey(k) && CleanValue(m[k])
    ensures forall p <- Pairs(keys, m) :: ',' !in p
  {
    forall i | 0 <= i < |keys| ensures ',' !in Pairs(keys, m)[i] {
      assert keys[i] in keys;
    }
  }

  /**
   The string form of a non-empty map, its pairs joined in any order, is read back as the same map if
   and only if the map is clean. Values may contain '='.
   */
  lemma AnnotationRoundTrip(m: map<string, string>, keys: seq<string>)
    requires Enumerates(keys, m) && keys != []
    ensures Parse(Join(Pairs(keys, m), ',')) == m <==> Clean(m)
  {
    var s := Join(Pairs(keys, m), ',');
    if Clean(m) {
      PairsCommaFree(keys, m);
      SplitJoin(Pairs(keys, m), ',');
      CollectPairs(keys, m);
    }
    CollectClean(Split(s, ','));
  }

  // ---- The config map ----

  datatype IngressConfig = IngressConfig(
    className: string, service: string, serviceNamespace: string, ipAddress: string, annotations: map<string, string>)

  const CLASS_NAME := "INGRESS_CLASS_NAME"
  const SERVICE := "INGRESS_LOAD_BALANCER_SERVICE"
  const NAMESPACE := "INGRESS_LOAD_BALANCER_NAMESPACE"
  const IP := "INGRESS_IP"
  const ANNOTATIONS := "INGRESS_ANNOTATIONS"

  /** The entry of a key, which is only written when it is not empty. */
  predicate Holds(data: map<string, string>, key: string, value: string) {
    if value == "" then key !in data else key in data && data[key] == value
  }

  const INGRESS_KEYS := {CLASS_NAME, SERVICE, NAMESPACE, IP, ANNOTATIONS}

  /** The pairs of a map, joined in some order. */
  ghost predicate IsPrint(s: string, m: map<string, string>) {
    exists keys: seq<string> :: Enumerates(keys, m) && keys != [] && s == Join(Pairs(keys, m), ',')
  }

  method PrintAnnotations(annotations: map<string, string>) returns (s: string)
    requires annotations != map[]
    ensures IsPrint(s, annotations)
  {
    var pairs: seq<string> := [];
    ghost var keys: seq<string> := [];
    var todo := annotations.Keys;
    while todo != {}
      invariant todo <= annotations.Keys
      invariant forall k :: k in keys <==> k in annotations && k !in todo
      invariant forall i, j :: 0 <= i < j < |keys| ==> keys[i] != keys[j]
      invariant pairs == Pairs(keys, annotations)
      decreases todo
    {
      var k :| k in todo;
      todo := todo - {k};
      keys := keys + [k];
      pairs := pairs + [Pair(k, annotations[k])];
    }
    assert Enumerates(keys, annotations);
    assert keys != [] by {
      var k :| k in annotations;
    }
    return Join(pairs, ',');
  }

  /** Removes the old ingress entries and writes those that are given; every other entry stays. */
  method UpdateIngressConfig(current: map<string, string>, config: IngressConfig) returns (cfg: map<string, string>)
    ensures Holds(cfg, "INGRESS_CLASS_NAME", config.className)
    ensures Holds(cfg, "INGRESS_LOAD_BALANCER_SERVICE", config.service)
    ensures Holds(cfg, "INGRESS_LOAD_BALANCER_NAMESPACE", config.serviceNamespace)
    ensures Holds(cfg, "INGRESS_IP", config.ipAddress)
    ensures config.annotations == map[] ==> "INGRESS_ANNOTATIONS" !in cfg
    ensures config.annotations != map[] ==>
              "INGRESS_ANNOTATIONS" in cfg && IsPrint(cfg["INGRESS_ANNOTATIONS"], config.annotations)
    ensures forall k :: k !in ["INGRESS_CLASS_NAME", "INGRESS_LOAD_BALANCER_SERVICE", "INGRESS_LOAD_BALANCER_NAMESPACE",
                               "INGRESS_IP", "INGRESS_ANNOTATIONS"] ==>
              (k in cfg <==> k in current) && (k in current ==> cfg[k] == current[k])
  {
    cfg := current - INGRESS_KEYS;
    if config.className != "" {
      cfg := cfg[CLASS_NAME := config.className];
    }
    if config.service != "" {
      cfg := cfg[SERVICE := config.service];
    }
    if config.serviceNamespace != "" {
      cfg := cfg[NAMESPACE := config.serviceNamespace];
    }
    if config.ipAddress != "" {
      cfg := cfg[IP := config.ipAddress];
    }
    if config.annotations != map[] {
      var joined := PrintAnnotations(config.annotations);
      cfg := cfg[ANNOTATIONS := joined];
    }
  }

  datatype Dynamic = Dynamic(
    service: string, serviceNamespace: string, className: string, ip: Option<string>, annotations: map<string, string>)

  function OrDefault(data: map<string, string>, key: string, fallback: string): string {
    if key in data && data[key] != "" then data[key] else fallback
  }

  /** Reads the entries over the defaults of the runtime configuration. */
  method GetDynamicIngressConfig(data: map<string, string>, defaults: Dynamic) returns (r: Dynamic)
    ensures r.service == OrDefault(data, "INGRESS_LOAD_BALANCER_SERVICE", defaults.service)
    ensures r.serviceNamespace == OrDefault(data, "INGRESS_LOAD_BALANCER_NAMESPACE", defaults.serviceNamespace)
    ensures r.className == OrDefault(data, "INGRESS_CLASS_NAME", defaults.className)
    ensures r.ip == if OrDefault(data, "INGRESS_IP", "") == "" then None else Some(data["INGRESS_IP"])
    ensures r.annotations == if "INGRESS_ANNOTATIONS" in data then Parse(data["INGRESS_ANNOTATIONS"]) else map[]
  {
    var service, serviceNamespace, className, ip := defaults.service, defaults.serviceNamespace, defaults.className, None;
    var annotations: map<string, string> := map[];
    if SERVICE in data && data[SERVICE] != "" {
      service := data[SERVICE];
    }
    if NAMESPACE in data && data[NAMESPACE] != "" {
      serviceNamespace := data[NAMESPACE];
    }
    if CLASS_NAME in data && data[CLASS_NAME] != "" {
      className := data[CLASS_NAME];
    }
    if IP in data && data[IP] != "" {
      ip := Some(data[IP]);
    }
    if ANNOTATIONS in data {
      var pieces := Split(data[ANNOTATIONS], ',');
      for i := 0 to |pieces|
        invariant annotations == Collect(pieces[..i])
      {
        assert pieces[..i + 1][..i] == pieces[..i];
        var cut := Cut(pieces[i], '=');
        if cut.Some? {
          annotations := annotations[Trim(cut.value.0) := Trim(cut.value.1)];
        }
      }
      assert pieces[..|pieces|] == pieces;
    }
    return Dynamic(service, serviceNamespace, className, ip, annotations);
  }

  /** What is written is what is read: empty settings fall back, annotations survive exactly when clean. */
  method WriteThenRead(current: map<string, string>, config: IngressConfig, defaults: Dynamic) returns (r: Dynamic)
    ensures r.service == if config.service == "" then defaults.service else config.service
    ensures r.serviceNamespace == if config.serviceNamespace == "" then defaults.serviceNamespace else config.serviceNamespace
    ensures r.className == if config.className == "" then defaults.className else config.className
    ensures r.ip == if config.ipAddress == "" then None else Some(config.ipAddress)
    ensures r.annotations == config.annotations <==> Clean(config.annotations)
  {
    var cfg := UpdateIngressConfig(current, config);
    if config.annotations != map[] {
      ghost var keys: seq<string> :| Enumerates(keys, config.annotations) && keys != []
        && cfg[ANNOTATIONS] == Join(Pairs(keys, config.annotations), ',');
      AnnotationRoundTrip(config.annotations, keys);
    }
    r := GetDynamicIngressConfig(cfg, defaults);
  }

  /** Flags without commas survive the whole way; the flag library splits at commas that are not quoted. */
  lemma FlagsSurvive(flags: seq<string>, keys: seq<string>)
    requires forall f <- flags :: ',' !in f
    requires Enumerates(keys, Collect(flags)) && keys != []
    ensures Parse(Join(Pairs(keys, Collect(flags)), ',')) == Collect(flags)
  {
    CollectClean(flags);
    AnnotationRoundTrip(Collect(flags), keys);
  }
}
