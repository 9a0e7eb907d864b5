/**
 The stores of a query container: written as numbered environment variables by the spec builder of
 the control plane, read back by the index factory of the query host.
 */
module StorageConfig {
  import opened Wrappers

  // ---- Numbers as text ----

  function Digit(d: nat): char
    requires d < 10
  {
    ['0', '1', '2', '3', '4', '5', '6', '7', '8', '9'][d]
  }

  function DigitValue(c: char): (r: Option<nat>)
    ensures r.Some? ==> r.value < 10 && Digit(r.value) == c
    ensures r.None? ==> forall d: nat | d < 10 :: Digit(d) != c
  {
    if '0' <= c <= '9' then Some((c as int - '0' as int) as nat) else None
  }

  function ToText(n: nat): (s: string)
    ensures s != "" && forall c <- s :: DigitValue(c).Some?
  {
    if n < 10 then [Digit(n)] else ToText(n / 10) + [Digit(n % 10)]
  }

  function ParseDigits(s: string): Option<nat> {
    if s == "" then None
    else
      match DigitValue(s[|s| - 1])
      case None => None
      case Some(d) =>
        if |s| == 1 then Some(d)
        else match ParseDigits(s[..|s| - 1])
          case None => None
          case Some(n) => Some(10 * n + d)
  }

  const MAX_USIZE: nat := 0xFFFF_FFFF_FFFF_FFFF

  /** Digits with an optional plus sign, up to the width of the machine. */
  function ParseUsize(s: string): Option<nat> {
    var n := ParseDigits(if s != "" && s[0] == '+' then s[1..] else s);
    if n.Some? && n.value <= MAX_USIZE then n else None
  }

  lemma DigitRoundTrip(d: nat)
    requires d < 10
    ensures DigitValue(Digit(d)) == Some(d)
  {
  }

  lemma {:induction false} ParseToText(n: nat)
    ensures ParseDigits(ToText(n)) == Some(n)
  {
    hide Digit, DigitValue;
    DigitRoundTrip(n % 10);
    if n >= 10 {
      ParseToText(n / 10);
      var s := ToText(n);
      assert s[..|s| - 1] == ToText(n / 10);
    }
  }

  function Zeros(k: nat): string { seq(k, _ => '0') }

  /** Leading zeros do not count. */
  lemma {:induction false} ParseZeros(k: nat, t: string)
    requires t != ""
    ensures ParseDigits(Zeros(k) + t) == ParseDigits(t)
    decreases k + |t|
  {
    var s := Zeros(k) + t;
    if |t| > 1 {
      assert s[..|s| - 1] == Zeros(k) + t[..|t| - 1];
      ParseZeros(k, t[..|t| - 1]);
    } else if k > 0 {
      assert s[..|s| - 1] == Zeros(k - 1) + "0";
      ParseZeros(k - 1, "0");
      assert ParseDigits("0") == Some(0);
    } else {
      assert s == t;
    }
  }

  lemma ToTextSnoc(m: nat, d: nat)
    requires d < 10
    ensures ToText(10 * m + d) == (if m == 0 then "" else ToText(m)) + [Digit(d)]
  {
    hide Digit;
    assert (10 * m + d) / 10 == m && (10 * m + d) % 10 == d;
  }

  lemma ZerosSnoc(k: nat)
    ensures Zeros(k) + ToText(0) == Zeros(k + 1) && Zeros(0) == ""
  {
  }

  /** The last digit, and what the ones before it are read as. */
  lemma LastDigit(s: string, n: nat) returns (m: nat, d: nat)
    requires |s| > 1 && ParseDigits(s) == Some(n)
    ensures d < 10 && n == 10 * m + d && ParseDigits(s[..|s| - 1]) == Some(m) && s == s[..|s| - 1] + [Digit(d)]
  {
    hide Digit;
    d := DigitValue(s[|s| - 1]).value;
    m := ParseDigits(s[..|s| - 1]).value;
  }

  lemma {:induction false} ParsedIsText(s: string, n: nat) returns (k: nat)
    requires ParseDigits(s) == Some(n)
    ensures s == Zeros(k) + ToText(n)
    decreases |s|
  {
    if |s| == 1 {
      hide Digit;
      k := 0;
      ZerosSnoc(0);
      ToTextSnoc(0, DigitValue(s[0]).value);
    } else {
      var m, d := LastDigit(s, n);
      k := ParsedIsText(s[..|s| - 1], m);
      ToTextSnoc(m, d);
      ZerosSnoc(k);
      hide Digit, DigitValue, ParseDigits, ToText, Zeros;
      var front, last := s[..|s| - 1], [Digit(d)];
      if m == 0 {
        assert s == Zeros(k + 1) + ToText(n);
        k := k + 1;
      } else {
        assert front + last == Zeros(k) + (ToText(m) + last);
      }
    }
  }

  /** What is read as n is n in decimal, possibly after zeros, and nothing else. */
  lemma ParseExact(s: string, n: nat)
    ensures ParseDigits(s) == Some(n) <==> exists k: nat :: s == Zeros(k) + ToText(n)
  {
    forall k: nat | s == Zeros(k) + ToText(n) ensures ParseDigits(s) == Some(n) {
      ParseZeros(k, ToText(n));
      ParseToText(n);
    }
    hide ParseDigits, ToText, Zeros;
    if ParseDigits(s) == Some(n) {
      var k := ParsedIsText(s, n);
    }
  }

  /** The same with an optional plus sign, up to the width of the machine. */
  lemma UsizeExact(s: string, n: nat)
    ensures ParseUsize(s) == Some(n) <==>
            && n <= 18446744073709551615
            && exists k: nat :: (if s != "" && s[0] == '+' then s[1..] else s) == Zeros(k) + ToText(n)
  {
    ParseExact(if s != "" && s[0] == '+' then s[1..] else s, n);
  }

  lemma UsizeRoundTrip(n: nat)
    requires n <= MAX_USIZE
    ensures ParseUsize(ToText(n)) == Some(n)
  {
    ParseToText(n);
    assert ToText(n)[0] in ToText(n);
  }

  function LowerChar(c: char): char {
    if 'A' <= c <= 'Z' then (c as int + 32) as char else c
  }

  function Lower(s: string): string {
    seq(|s|, i requires 0 <= i < |s| => LowerChar(s[i]))
  }

  /** The capital letters change, one by one, and nothing else does. */
  lemma LowerLetters(s: string)
    ensures Lower("ABCDEFGHIJKLMNOPQRSTUVWXYZ") == "abcdefghijklmnopqrstuvwxyz"
    ensures |Lower(s)| == |s| && forall i :: 0 <= i < |s| && (s[i] < 'A' || 'Z' < s[i]) ==> Lower(s)[i] == s[i]
  {
  }

  function BoolText(b: bool): string { if b then "true" else "false" }

  // ---- The specifications on both sides ----

  datatype ConfigValue = Inline(value: string) | Secret(name: string, key: string)

  datatype StorageSpec =
    | Memory(enableArchive: bool)
    | Redis(connectionString: ConfigValue, cacheSize: Option<nat>)
    | RocksDb(enableArchive: bool, storageClass: Option<string>, directIo: bool)

  datatype HostSpec =
    | HostMemory(enableArchive: bool)
    | HostRedis(connectionString: string, cacheSize: Option<nat>)
    | HostRocksDb(enableArchive: bool, directIo: bool)

  type Secrets = (string, string) -> string

  /** What a container finds in a variable. */
  function Resolve(v: ConfigValue, secrets: Secrets): string {
    match v
    case Inline(value) => value
    case Secret(name, key) => secrets(name, key)
  }

  /** What reaches the query host: the storage class is used up, and a cache of size 0 is no cache. */
  function Erase(spec: StorageSpec, secrets: Secrets): HostSpec {
    match spec
    case Memory(archive) => HostMemory(archive)
    case Redis(connection, cache) => HostRedis(Resolve(connection, secrets), if cache == Some(0) then None else cache)
    case RocksDb(archive, _, directIo) => HostRocksDb(archive, directIo)
  }

  // ---- Variable names ----

  datatype Field = Name | Type | EnableArchive | ConnectionString | CacheSize | DirectIo

  function FieldText(f: Field): string {
    match f
    case Name => ""
    case Type => "_TYPE"
    case EnableArchive => "_ENABLE_ARCHIVE"
    case ConnectionString => "_CONNECTION_STRING"
    case CacheSize => "_CACHE_SIZE"
    case DirectIo => "_DIRECT_IO"
  }

  const PREFIX := "STORE_"

  function Var(i: nat, f: Field): string { PREFIX + ToText(i) + FieldText(f) }

  lemma FieldTexts(f: Field, g: Field)
    ensures FieldText(f) == FieldText(g) ==> f == g
    ensures FieldText(f) != "" ==> FieldText(f)[0] == '_'
  {
    assert |FieldText(Name)| == 0 && |FieldText(Type)| == 5 && |FieldText(EnableArchive)| == 15;
    assert |FieldText(ConnectionString)| == 18 && |FieldText(CacheSize)| == 11 && |FieldText(DirectIo)| == 10;
  }

  lemma UnderscoreInside(a: string, x: string, b: string, y: string)
    requires a + x == b + y && |a| < |b| && x != "" && x[0] == '_'
    ensures '_' in b
  {
    assert (a + x)[|a|] == x[0];
    assert (b + y)[|a|] == b[|a|];
  }

  /** Digits followed by nothing or an underscore: the number of digits is where the underscore is. */
  lemma DigitsEnd(a: string, x: string, b: string, y: string)
    requires a + x == b + y && |a| <= |b|
    requires '_' !in b
    requires x != "" ==> x[0] == '_'
    ensures a == b && x == y
  {
    assert |a| + |x| == |a + x| == |b| + |y|;
    if |a| < |b| {
      UnderscoreInside(a, x, b, y);
    }
    assert (a + x)[..|a|] == a && (a + x)[|a|..] == x;
    assert (b + y)[..|b|] == b && (b + y)[|b|..] == y;
  }

  lemma VarInjective(i: nat, f: Field, j: nat, g: Field)
    ensures Var(i, f) == Var(j, g) ==> i == j && f == g
  {
    hide ToText, FieldText, DigitValue;
    if Var(i, f) == Var(j, g) {
      var a, x, b, y := ToText(i), FieldText(f), ToText(j), FieldText(g);
      assert Var(i, f)[|PREFIX|..] == a + x && Var(j, g)[|PREFIX|..] == b + y;
      hide Var;
      FieldTexts(f, g);
      FieldTexts(g, f);
      NoUnderscore(i);
      NoUnderscore(j);
      if |a| <= |b| {
        DigitsEnd(a, x, b, y);
      } else {
        DigitsEnd(b, y, a, x);
      }
      ParseToText(i);
      ParseToText(j);
    }
  }

  lemma NoUnderscore(n: nat)
    ensures '_' !in ToText(n)
  {
    hide ToText;
  }

  lemma VarPrefix(i: nat, f: Field)
    ensures PREFIX <= Var(i, f)
  {
  }

  // ---- The builder ----

  function TypeText(spec: StorageSpec): string {
    match spec
    case Memory(_) => "Memory"
    case Redis(_, _) => "Redis"
    case RocksDb(_, _, _) => "RocksDb"
  }

  /** The variable that the builder sets for a field of a store, if it sets one. */
  function Entry(name: string, spec: StorageSpec, f: Field): Option<ConfigValue> {
    match (f, spec)
    case (Name, _) => Some(Inline(name))
    case (Type, _) => Some(Inline(TypeText(spec)))
    case (EnableArchive, Memory(archive)) => Some(Inline(BoolText(archive)))
    case (EnableArchive, RocksDb(archive, _, _)) => Some(Inline(BoolText(archive)))
    case (ConnectionString, Redis(connection, _)) => Some(connection)
    case (CacheSize, Redis(_, Some(n))) => Some(Inline(ToText(n)))
    case (DirectIo, RocksDb(_, _, directIo)) => Some(Inline(BoolText(directIo)))
    case _ => None
  }

  /** What an environment has for a field of a store. */
  function Get(env: map<string, ConfigValue>, i: nat, f: Field): Option<ConfigValue> {
    if Var(i, f) in env then Some(env[Var(i, f)]) else None
  }

  /** The variables that have nothing to do with stores. */
  function Others(env: map<string, ConfigValue>): map<string, ConfigValue> {
    map k | k in env && !(PREFIX <= k) :: env[k]
  }

  /** The environment holds exactly the variables of the first n stores, beside the others. */
  ghost predicate Encodes(env: map<string, ConfigValue>, storage: seq<(string, StorageSpec)>, n: nat)
    requires n <= |storage|
  {
    && (forall i: nat, f: Field ::
          Get(env, i, f) == if i < n then Entry(storage[i].0, storage[i].1, f) else None)
    && NamedAsStores(env)
  }

  /** Under the prefix there is nothing but variables of stores. */
  ghost predicate NamedAsStores(env: map<string, ConfigValue>) {
    forall k <- env :: PREFIX <= k ==> exists i: nat, f: Field :: k == Var(i, f)
  }

  /** The variables of one store by name: its own, its type, and what its type calls for. */
  predicate StoreVars(env: map<string, ConfigValue>, store: string, name: string, spec: StorageSpec) {
    && Has(env, store, Inline(name))
    && match spec
       case Memory(archive) =>
         && Has(env, store + "_TYPE", Inline("Memory"))
         && Has(env, store + "_ENABLE_ARCHIVE", Inline(if archive then "true" else "false"))
         && store + "_CONNECTION_STRING" !in env && store + "_CACHE_SIZE" !in env && store + "_DIRECT_IO" !in env
       case Redis(connection, cache) =>
         && Has(env, store + "_TYPE", Inline("Redis"))
         && Has(env, store + "_CONNECTION_STRING", connection)
         && (if cache.Some? then Has(env, store + "_CACHE_SIZE", Inline(ToText(cache.value))) else store + "_CACHE_SIZE" !in env)
         && store + "_ENABLE_ARCHIVE" !in env && store + "_DIRECT_IO" !in env
       case RocksDb(archive, _, directIo) =>
         && Has(env, store + "_TYPE", Inline("RocksDb"))
         && Has(env, store + "_ENABLE_ARCHIVE", Inline(if archive then "true" else "false"))
         && Has(env, store + "_DIRECT_IO", Inline(if directIo then "true" else "false"))
         && store + "_CONNECTION_STRING" !in env && store + "_CACHE_SIZE" !in env
  }

  predicate Has(env: map<string, ConfigValue>, name: string, v: ConfigValue) {
    name in env && env[name] == v
  }

  lemma VariableNames(i: nat)
    ensures var store := "STORE_" + ToText(i);
            && Var(i, Name) == store && Var(i, Type) == store + "_TYPE"
            && Var(i, EnableArchive) == store + "_ENABLE_ARCHIVE"
            && Var(i, ConnectionString) == store + "_CONNECTION_STRING"
            && Var(i, CacheSize) == store + "_CACHE_SIZE" && Var(i, DirectIo) == store + "_DIRECT_IO"
  {
    hide ToText;
  }

  /** The field of a store has its variable, or none, as Encodes says. */
  lemma FieldVar(env: map<string, ConfigValue>, storage: seq<(string, StorageSpec)>, i: nat, f: Field)
    requires Encodes(env, storage, |storage|) && i < |storage|
    ensures var e := Entry(storage[i].0, storage[i].1, f);
            if e.Some? then Has(env, Var(i, f), e.value) else Var(i, f) !in env
  {
    hide Var, Entry;
    assert Get(env, i, f) == Entry(storage[i].0, storage[i].1, f);
  }

  /** Numbers are written in decimal. */
  lemma Decimal(n: nat)
    ensures ToText(n) == (if n < 10 then "" else ToText(n / 10)) + ["0123456789"[n % 10]]
  {
  }

  lemma EntryTexts(name: string, spec: StorageSpec)
    ensures Entry(name, spec, Name) == Some(Inline(name))
    ensures match spec
            case Memory(archive) =>
              && Entry(name, spec, Type) == Some(Inline("Memory"))
              && Entry(name, spec, EnableArchive) == Some(Inline(if archive then "true" else "false"))
              && Entry(name, spec, ConnectionString) == Entry(name, spec, CacheSize) == Entry(name, spec, DirectIo) == None
            case Redis(connection, cache) =>
              && Entry(name, spec, Type) == Some(Inline("Redis")) && Entry(name, spec, ConnectionString) == Some(connection)
              && Entry(name, spec, CacheSize) == (if cache.Some? then Some(Inline(ToText(cache.value))) else None)
              && Entry(name, spec, EnableArchive) == Entry(name, spec, DirectIo) == None
            case RocksDb(archive, _, directIo) =>
              && Entry(name, spec, Type) == Some(Inline("RocksDb"))
              && Entry(name, spec, EnableArchive) == Some(Inline(if archive then "true" else "false"))
              && Entry(name, spec, DirectIo) == Some(Inline(if directIo then "true" else "false"))
              && Entry(name, spec, ConnectionString) == Entry(name, spec, CacheSize) == None
  {
    hide ToText;
  }

  /** What an encoded environment has for each store. */
  lemma EncodedStore(env: map<string, ConfigValue>, storage: seq<(string, StorageSpec)>, i: nat)
    requires Encodes(env, storage, |storage|) && i < |storage|
    ensures StoreVars(env, "STORE_" + ToText(i), storage[i].0, storage[i].1)
  {
    VariableNames(i);
    FieldVar(env, storage, i, Name);
    FieldVar(env, storage, i, Type);
    FieldVar(env, storage, i, EnableArchive);
    FieldVar(env, storage, i, ConnectionString);
    FieldVar(env, storage, i, CacheSize);
    FieldVar(env, storage, i, DirectIo);
    hide Var, Encodes, ToText, Has;
    EntryTexts(storage[i].0, storage[i].1);
    hide Entry;
  }

  method Set(env: map<string, ConfigValue>, i: nat, f: Field, v: ConfigValue) returns (r: map<string, ConfigValue>)
    ensures forall j: nat, g: Field :: Get(r, j, g) == if j == i && g == f then Some(v) else Get(env, j, g)
    ensures Others(r) == Others(env)
    ensures NamedAsStores(env) ==> NamedAsStores(r)
  {
    r := env[Var(i, f) := v];
    forall j: nat, g: Field ensures Get(r, j, g) == if j == i && g == f then Some(v) else Get(env, j, g) {
      VarInjective(j, g, i, f);
    }
    VarPrefix(i, f);
  }

  /** The two fixed variables are no store variables. */
  lemma OtherNames()
    ensures !(PREFIX <= "DEFAULT_STORE") && !(PREFIX <= "QUERY_NODE_ID")
  {
    assert PREFIX[0] == 'S' && "DEFAULT_STORE"[0] == 'D' && "QUERY_NODE_ID"[0] == 'Q';
  }

  /** The variables of one store. */
  method SetStore(env: map<string, ConfigValue>, i: nat, name: string, spec: StorageSpec) returns (r: map<string, ConfigValue>)
    requires forall f: Field :: Get(env, i, f) == None
    ensures forall j: nat, g: Field :: Get(r, j, g) == if j == i then Entry(name, spec, g) else Get(env, j, g)
    ensures Others(r) == Others(env)
    ensures NamedAsStores(env) ==> NamedAsStores(r)
  {
    hide Get, Others, NamedAsStores, ToText, BoolText, TypeText;
    r := Set(env, i, Name, Inline(name));
    r := Set(r, i, Type, Inline(TypeText(spec)));
    match spec
    case Memory(archive) =>
      r := Set(r, i, EnableArchive, Inline(BoolText(archive)));
    case Redis(connection, cache) =>
      r := Set(r, i, ConnectionString, connection);
      if cache.Some? {
        r := Set(r, i, CacheSize, Inline(ToText(cache.value)));
      }
    case RocksDb(archive, _, directIo) =>
      r := Set(r, i, EnableArchive, Inline(BoolText(archive)));
      r := Set(r, i, DirectIo, Inline(BoolText(directIo)));
  }

  method EncodeStores(start: map<string, ConfigValue>, storage: seq<(string, StorageSpec)>) returns (env: map<string, ConfigValue>)
    requires Encodes(start, storage, 0)
    ensures Encodes(env, storage, |storage|) && Others(env) == Others(start)
  {
    hide Get, Entry, Others, NamedAsStores;
    env := start;
    for i := 0 to |storage|
      invariant Encodes(env, storage, i) && Others(env) == Others(start)
    {
      env := SetStore(env, i, storage[i].0, storage[i].1);
    }
  }

  /** The variables beside those of the stores: results take precedence over the identity, the default store over both. */
  function FixedVars(id: string, results: map<string, ConfigValue>, defaultStore: string): map<string, ConfigValue> {
    (map["QUERY_NODE_ID" := Inline(id)] + results)["DEFAULT_STORE" := Inline(defaultStore)]
  }

  /** The settings of the query host: identity, results, default store, then the stores in some order. */
  method BuildEnv(id: string, results: map<string, ConfigValue>, defaultStore: string, storage: seq<(string, StorageSpec)>)
    returns (env: map<string, ConfigValue>)
    requires forall k <- results :: !(PREFIX <= k)
    ensures Encodes(env, storage, |storage|) && Others(env) == FixedVars(id, results, defaultStore)
    ensures "DEFAULT_STORE" in env && env["DEFAULT_STORE"] == Inline(defaultStore)
    ensures "QUERY_NODE_ID" in env
            && env["QUERY_NODE_ID"] == if "QUERY_NODE_ID" in results then results["QUERY_NODE_ID"] else Inline(id)
    ensures forall k <- results :: k != "DEFAULT_STORE" ==> k in env && env[k] == results[k]
    ensures forall i :: 0 <= i < |storage| ==>
              StoreVars(env, "STORE_" + ToText(i), storage[i].0, storage[i].1)
  {
    env := map["QUERY_NODE_ID" := Inline(id)];
    env := env + results;
    env := env["DEFAULT_STORE" := Inline(defaultStore)];
    OtherNames();
    NoStores(env, storage);
    hide Encodes, Others, StoreVars, ToText;
    env := EncodeStores(env, storage);
    hide FixedVars;
    FixedSettings(env, id, results, defaultStore);
    forall i | 0 <= i < |storage| ensures StoreVars(env, "STORE_" + ToText(i), storage[i].0, storage[i].1) {
      EncodedStore(env, storage, i);
    }
  }

  /** The identity unless results override it, the results unless the default store does, and the default store. */
  lemma FixedSettings(env: map<string, ConfigValue>, id: string, results: map<string, ConfigValue>, defaultStore: string)
    requires Others(env) == FixedVars(id, results, defaultStore)
    ensures "DEFAULT_STORE" in env && env["DEFAULT_STORE"] == Inline(defaultStore)
    ensures "QUERY_NODE_ID" in env
            && env["QUERY_NODE_ID"] == if "QUERY_NODE_ID" in results then results["QUERY_NODE_ID"] else Inline(id)
    ensures forall k <- results :: k != "DEFAULT_STORE" ==> k in env && env[k] == results[k]
  {
    assert "QUERY_NODE_ID" != "DEFAULT_STORE";
    var fixed := FixedVars(id, results, defaultStore);
    forall k | k in fixed ensures k in env && env[k] == fixed[k] {
      assert k in Others(env);
    }
  }

  lemma NoStores(env: map<string, ConfigValue>, storage: seq<(string, StorageSpec)>)
    requires forall k <- env :: !(PREFIX <= k)
    ensures Encodes(env, storage, 0) && Others(env) == env
  {
    forall i: nat, f: Field ensures Get(env, i, f) == None {
      VarPrefix(i, f);
    }
  }

  /** The two descriptions together leave nothing open: they determine the environment. */
  lemma EnvDetermined(a: map<string, ConfigValue>, b: map<string, ConfigValue>, storage: seq<(string, StorageSpec)>)
    requires Encodes(a, storage, |storage|) && Encodes(b, storage, |storage|) && Others(a) == Others(b)
    ensures a == b
  {
    hide Entry, Var;
    forall k: string ensures k in a ==> k in b && a[k] == b[k] {
      SameVariable(a, b, storage, k);
    }
    forall k: string ensures k in b ==> k in a {
      SameVariable(b, a, storage, k);
    }
  }

  lemma SameVariable(a: map<string, ConfigValue>, b: map<string, ConfigValue>, storage: seq<(string, StorageSpec)>, k: string)
    requires Encodes(a, storage, |storage|) && Encodes(b, storage, |storage|) && Others(a) == Others(b)
    ensures k in a ==> k in b && a[k] == b[k]
  {
    hide Entry, Var;
    if k in a {
      if PREFIX <= k {
        var i: nat, f: Field :| k == Var(i, f);
        assert Get(a, i, f) == Get(b, i, f);
      } else {
        assert k in Others(a);
      }
    }
  }

  // ---- From the deployment to the container ----

  /** One entry of a container's environment list: a value, or a reference to a secret. */
  datatype EnvVar = EnvVar(name: string, value: Option<string>, valueFrom: Option<(string, string)>)

  function ToEnvVar(name: string, v: ConfigValue): EnvVar {
    match v
    case Inline(value) => EnvVar(name, Some(value), None)
    case Secret(secret, key) => EnvVar(name, None, Some((secret, key)))
  }

  /** The list in any order, sorted or not: one entry for each variable. */
  ghost predicate Lists(vars: seq<EnvVar>, env: map<string, ConfigValue>) {
    && (forall k :: k in env ==> ToEnvVar(k, env[k]) in vars)
    && (forall v <- vars :: v.name in env && v == ToEnvVar(v.name, env[v.name]))
  }

  method MapEnvVars(env: map<string, ConfigValue>) returns (vars: seq<EnvVar>)
    ensures Lists(vars, env)
    ensures forall i, j :: 0 <= i < j < |vars| ==> vars[i].name != vars[j].name
  {
    vars := [];
    var todo := env.Keys;
    while todo != {}
      invariant todo <= env.Keys
      invariant forall k :: k in env && k !in todo ==> ToEnvVar(k, env[k]) in vars
      invariant forall v <- vars :: v.name in env && v.name !in todo && v == ToEnvVar(v.name, env[v.name])
      invariant forall i, j :: 0 <= i < j < |vars| ==> vars[i].name != vars[j].name
      decreases todo
    {
      var k :| k in todo;
      todo := todo - {k};
      assert forall v <- vars :: v.name != k;
      vars := vars + [ToEnvVar(k, env[k])];
    }
  }

  function VarValue(v: EnvVar, secrets: Secrets): string {
    match v.value
    case Some(value) => value
    case None => if v.valueFrom.Some? then secrets(v.valueFrom.value.0, v.valueFrom.value.1) else ""
  }

  /** The variables a container starts with: those it has anyway, then its own list in order. */
  function Container(base: map<string, string>, vars: seq<EnvVar>, secrets: Secrets): map<string, string> {
    if vars == [] then base
    else
      var n := |vars| - 1;
      Container(base, vars[..n], secrets)[vars[n].name := VarValue(vars[n], secrets)]
  }

  /** Whatever the order of the list, each variable has its resolved value. */
  lemma {:induction false} ContainerValues(base: map<string, string>, vars: seq<EnvVar>, secrets: Secrets,
                                           env: map<string, ConfigValue>, k: string)
    requires forall v <- vars :: v.name in env && v == ToEnvVar(v.name, env[v.name])
    ensures var c := Container(base, vars, secrets);
            if exists v <- vars :: v.name == k then k in c && k in env && c[k] == Resolve(env[k], secrets)
            else (k in c <==> k in base) && (k in base ==> c[k] == base[k])
    decreases |vars|
  {
    if vars != [] {
      var n := |vars| - 1;
      ContainerValues(base, vars[..n], secrets, env, k);
      assert vars[n] in vars;
      assert forall v :: v in vars <==> v in vars[..n] || v == vars[n];
    }
  }

  // ---- The index factory ----

  datatype Factory = Factory(defaultStore: string, specs: map<string, HostSpec>)

  function Flag(env: map<string, string>, name: string): bool {
    name in env && Lower(env[name]) == "true"
  }

  /** What store i of the environment is read as; None where the factory logs an error and goes on. */
  function ReadSpec(env: map<string, string>, i: nat): Option<HostSpec> {
    if Var(i, Type) !in env then None
    else
      var t := Lower(env[Var(i, Type)]);
      if t == "memory" then Some(HostMemory(Flag(env, Var(i, EnableArchive))))
      else if t == "redis" then
        if Var(i, ConnectionString) !in env then None
        else
          var size := if Var(i, CacheSize) in env then ParseUsize(env[Var(i, CacheSize)]) else None;
          Some(HostRedis(env[Var(i, ConnectionString)], if size == Some(0) then None else size))
      else if t == "rocksdb" then
        Some(HostRocksDb(Flag(env, Var(i, EnableArchive)), Flag(env, Var(i, DirectIo))))
      else None
  }

  /** The stores 0 to n - 1, read in order. */
  function ReadSpecs(env: map<string, string>, n: nat): map<string, HostSpec>
    requires forall i: nat :: i < n ==> Var(i, Name) in env
  {
    if n == 0 then map[]
    else
      var specs := ReadSpecs(env, n - 1);
      match ReadSpec(env, n - 1)
      case Some(spec) => specs[env[Var(n - 1, Name)] := spec]
      case None => specs
  }

  /** A store is found by the last one of its name that could be read. */
  predicate LastRead(env: map<string, string>, n: nat, i: nat, name: string) {
    && i < n && NamedAndRead(env, i, name)
    && forall j: nat :: i < j < n ==> !NamedAndRead(env, j, name)
  }

  predicate NamedAndRead(env: map<string, string>, i: nat, name: string) {
    Var(i, Name) in env && env[Var(i, Name)] == name && ReadSpec(env, i).Some?
  }

  lemma ReadOneMore(env: map<string, string>, n: nat, name: string)
    requires n > 0 && forall i: nat :: i < n ==> Var(i, Name) in env
    ensures var before, after := ReadSpecs(env, n - 1), ReadSpecs(env, n);
            && (name in after <==> name in before || NamedAndRead(env, n - 1, name))
            && (NamedAndRead(env, n - 1, name) ==> ReadSpec(env, n - 1) == Some(after[name]))
            && (name in before && !NamedAndRead(env, n - 1, name) ==> after[name] == before[name])
  {
    hide Var, ReadSpec;
  }

  /** The names are those of the stores that could be read. */
  lemma {:induction false} ReadSpecsNames(env: map<string, string>, n: nat, name: string)
    requires forall i: nat :: i < n ==> Var(i, Name) in env
    ensures name in ReadSpecs(env, n) <==> exists i: nat :: i < n && NamedAndRead(env, i, name)
  {
    if n > 0 {
      ReadSpecsNames(env, n - 1, name);
      ReadOneMore(env, n, name);
      hide Var, ReadSpecs, NamedAndRead;
      if name in ReadSpecs(env, n - 1) {
        var i: nat :| i < n - 1 && NamedAndRead(env, i, name);
        assert i < n;
      }
    }
  }

  /** Of several stores with one name the last counts. */
  lemma {:induction false} ReadSpecsLast(env: map<string, string>, n: nat, i: nat, name: string)
    requires forall i: nat :: i < n ==> Var(i, Name) in env
    requires LastRead(env, n, i, name)
    ensures name in ReadSpecs(env, n) && ReadSpec(env, i) == Some(ReadSpecs(env, n)[name])
    decreases n
  {
    ReadOneMore(env, n, name);
    hide Var, ReadSpec, ReadSpecs, NamedAndRead;
    if i < n - 1 {
      ReadSpecsLast(env, n - 1, i, name);
    }
  }

  /** What a store is read as, by the names of its variables; what is missing or unknown leaves it out. */
  lemma ReadSpecExact(env: map<string, string>, i: nat)
    ensures var store, spec := "STORE_" + ToText(i), ReadSpec(env, i);
            if store + "_TYPE" !in env then spec == None
            else
              var archive := store + "_ENABLE_ARCHIVE" in env && Lower(env[store + "_ENABLE_ARCHIVE"]) == "true";
              match Lower(env[store + "_TYPE"])
              case "memory" => spec == Some(HostMemory(archive))
              case "rocksdb" =>
                spec == Some(HostRocksDb(archive, store + "_DIRECT_IO" in env && Lower(env[store + "_DIRECT_IO"]) == "true"))
              case "redis" =>
                if store + "_CONNECTION_STRING" !in env then spec == None
                else
                  && spec.Some? && spec.value.HostRedis? && spec.value.connectionString == env[store + "_CONNECTION_STRING"]
                  && forall size: nat :: spec.value.cacheSize == Some(size) <==>
                       size > 0 && store + "_CACHE_SIZE" in env && ParseUsize(env[store + "_CACHE_SIZE"]) == Some(size)
              case _ => spec == None
  {
    VariableNames(i);
    hide Var, ToText, Lower, ParseUsize;
  }

  const FALLBACK := map["memory" := HostMemory(false)]

  /** n is the number of the first store that has no name. */
  ghost predicate Counts(env: map<string, string>, n: nat) {
    (forall i: nat :: i < n ==> Var(i, Name) in env) && Var(n, Name) !in env
  }

  // ---- The first name in order ----

  predicate Less(a: string, b: string) {
    b != "" && (a == "" || a[0] < b[0] || (a[0] == b[0] && Less(a[1..], b[1..])))
  }

  lemma {:induction false} LessTotal(a: string, b: string)
    ensures a == b || Less(a, b) || Less(b, a)
    decreases |a|
  {
    if a != "" && b != "" && a[0] == b[0] {
      LessTotal(a[1..], b[1..]);
      assert a == [a[0]] + a[1..] && b == [b[0]] + b[1..];
    }
  }

  /** The order of strings: a proper prefix comes first, else the first difference decides. */
  lemma {:induction false} LessExact(a: string, b: string)
    ensures Less(a, b) <==> exists n: nat :: Differ(a, b, n)
    decreases |a|
  {
    if a == "" || b == "" || a[0] != b[0] {
      assert Differ(a, b, 0) <==> Less(a, b);
      forall n: nat | Differ(a, b, n) ensures n == 0 {
      }
    } else {
      LessExact(a[1..], b[1..]);
      if n: nat :| Differ(a[1..], b[1..], n) {
        assert a == [a[0]] + a[1..] && b == [b[0]] + b[1..];
        assert a[..n + 1] == [a[0]] + a[1..][..n] && b[..n + 1] == [b[0]] + b[1..][..n];
        assert Differ(a, b, n + 1);
      }
      if n: nat :| Differ(a, b, n) {
        assert n > 0;
        assert a[1..][..n - 1] == a[..n][1..] && b[1..][..n - 1] == b[..n][1..];
        assert Differ(a[1..], b[1..], n - 1);
      }
    }
  }

  /** The strings agree on n characters, and then a ends, or has the smaller character. */
  predicate Differ(a: string, b: string, n: nat) {
    n <= |a| && n < |b| && a[..n] == b[..n] && (n == |a| || a[n] < b[n])
  }

  lemma {:induction false} LessTransitive(a: string, b: string, c: string)
    requires Less(a, b) && Less(b, c)
    ensures Less(a, c)
    decreases |a|
  {
    if a != "" && a[0] == b[0] == c[0] {
      LessTransitive(a[1..], b[1..], c[1..]);
    }
  }

  /** The first key of an ordered map. */
  method FirstName(specs: map<string, HostSpec>) returns (first: string)
    requires specs != map[]
    ensures first in specs && forall n <- specs :: n == first || Less(first, n)
  {
    assert specs.Keys != {};
    first :| first in specs;
    var todo := specs.Keys - {first};
    while todo != {}
      invariant first in specs && todo <= specs.Keys
      invariant forall n <- specs :: n in todo || n == first || Less(first, n)
      decreases todo
    {
      var n :| n in todo;
      todo := todo - {n};
      LessTotal(first, n);
      if Less(n, first) {
        forall k | k in specs && Less(first, k) ensures Less(n, k) {
          LessTransitive(n, first, k);
        }
        first := n;
      }
    }
  }

  /** Reads stores until one is missing; a gap ends the reading. Without a default store it is the first in order. */
  method NewFactory(env: map<string, string>) returns (factory: Factory, ghost count: nat)
    ensures Counts(env, count)
    ensures factory.specs == if ReadSpecs(env, count) == map[] then map["memory" := HostMemory(false)] else ReadSpecs(env, count)
    ensures "DEFAULT_STORE" in env ==> factory.defaultStore == env["DEFAULT_STORE"]
    ensures "DEFAULT_STORE" !in env ==>
              && factory.defaultStore in factory.specs
              && forall n <- factory.specs :: n == factory.defaultStore || Less(factory.defaultStore, n)
  {
    hide Var, ReadSpec;
    var specs: map<string, HostSpec> := map[];
    var storeIndex: nat := 0;
    ghost var rest := env.Keys;
    while Var(storeIndex, Name) in env
      invariant forall i: nat :: i < storeIndex ==> Var(i, Name) in env
      invariant specs == ReadSpecs(env, storeIndex)
      invariant rest <= env.Keys
      invariant forall i: nat :: storeIndex <= i && Var(i, Name) in env ==> Var(i, Name) in rest
      decreases rest
    {
      var store := env[Var(storeIndex, Name)];
      ghost var before := rest;
      rest := rest - {Var(storeIndex, Name)};
      assert Var(storeIndex, Name) in before;
      forall i: nat | storeIndex < i && Var(i, Name) in env ensures Var(i, Name) in rest {
        VarInjective(i, Name, storeIndex, Name);
      }
      var spec := ReadStore(env, storeIndex);
      if spec.Some? {
        specs := specs[store := spec.value];
      }
      storeIndex := storeIndex + 1;
    }
    count := storeIndex;
    if specs == map[] {
      assert "memory" in FALLBACK;
      specs := FALLBACK;
    }
    var defaultStore;
    if "DEFAULT_STORE" in env {
      defaultStore := env["DEFAULT_STORE"];
    } else {
      defaultStore := FirstName(specs);
    }
    factory := Factory(defaultStore, specs);
  }

  method ReadStore(env: map<string, string>, i: nat) returns (spec: Option<HostSpec>)
    ensures spec == ReadSpec(env, i)
  {
    if Var(i, Type) !in env {
      return None;
    }
    var storeType := Lower(env[Var(i, Type)]);
    if storeType == "memory" {
      return Some(HostMemory(Flag(env, Var(i, EnableArchive))));
    } else if storeType == "redis" {
      if Var(i, ConnectionString) !in env {
        return None;
      }
      var cacheSize: Option<nat> := None;
      if Var(i, CacheSize) in env {
        var parsed := ParseUsize(env[Var(i, CacheSize)]);
        var size := if parsed.Some? then parsed.value else 0;
        if size >= 1 {
          cacheSize := Some(size);
        }
      }
      return Some(HostRedis(env[Var(i, ConnectionString)], cacheSize));
    } else if storeType == "rocksdb" {
      return Some(HostRocksDb(Flag(env, Var(i, EnableArchive)), Flag(env, Var(i, DirectIo))));
    }
    return None;
  }

  // ---- Round trip ----

  /** The container sees what the builder wrote, and no other variable with the prefix. */
  ghost predicate Delivered(c: map<string, string>, env: map<string, ConfigValue>, secrets: Secrets) {
    forall i: nat, f: Field ::
      match Get(env, i, f)
      case None => Var(i, f) !in c
      case Some(v) => Var(i, f) in c && c[Var(i, f)] == Resolve(v, secrets)
  }

  predicate CacheFits(spec: StorageSpec) {
    spec.Redis? && spec.cacheSize.Some? ==> spec.cacheSize.value <= 0xFFFF_FFFF
  }

  lemma LowerTexts()
    ensures Lower("Memory") == "memory" && Lower("Redis") == "redis" && Lower("RocksDb") == "rocksdb"
    ensures Lower("true") == "true" && Lower("false") == "false"
  {
  }

  lemma ReadsBack(c: map<string, string>, env: map<string, ConfigValue>, secrets: Secrets,
                  storage: seq<(string, StorageSpec)>, i: nat)
    requires Encodes(env, storage, |storage|) && Delivered(c, env, secrets) && i < |storage| && CacheFits(storage[i].1)
    ensures Var(i, Name) in c && c[Var(i, Name)] == storage[i].0
    ensures ReadSpec(c, i) == Some(Erase(storage[i].1, secrets))
  {
    hide Var, Get, ToText, ParseUsize, Lower;
    LowerTexts();
    assert forall f: Field :: Get(env, i, f) == Entry(storage[i].0, storage[i].1, f);
    var name, spec := storage[i].0, storage[i].1;
    assert Entry(name, spec, Name).Some? && Entry(name, spec, Type).Some?;
    match spec
    case Memory(_) =>
      assert Entry(name, spec, EnableArchive).Some?;
    case Redis(connection, cache) =>
      assert Entry(name, spec, ConnectionString).Some?;
      assert Entry(name, spec, CacheSize) == if cache.Some? then Some(Inline(ToText(cache.value))) else None;
      if cache.Some? {
        UsizeRoundTrip(cache.value);
      }
    case RocksDb(_, _, _) =>
      assert Entry(name, spec, EnableArchive).Some? && Entry(name, spec, DirectIo).Some?;
  }

  /** The stores by name; no name occurs twice. */
  function ByName(storage: seq<(string, StorageSpec)>, secrets: Secrets): map<string, HostSpec> {
    if storage == [] then map[]
    else
      var n := |storage| - 1;
      ByName(storage[..n], secrets)[storage[n].0 := Erase(storage[n].1, secrets)]
  }

  lemma {:induction false} ReadsAllBack(c: map<string, string>, env: map<string, ConfigValue>, secrets: Secrets,
                                        storage: seq<(string, StorageSpec)>, n: nat)
    requires Encodes(env, storage, |storage|) && Delivered(c, env, secrets) && n <= |storage|
    requires forall s <- storage :: CacheFits(s.1)
    ensures forall i: nat :: i < n ==> Var(i, Name) in c
    ensures ReadSpecs(c, n) == ByName(storage[..n], secrets)
    decreases n
  {
    hide Var, ReadSpec, Erase, Encodes, Delivered;
    if n > 0 {
      assert storage[n - 1] in storage;
      ReadsAllBack(c, env, secrets, storage, n - 1);
      ReadsBack(c, env, secrets, storage, n - 1);
      assert storage[..n][..n - 1] == storage[..n - 1];
    }
  }

  /** Each store is found under its name, and nothing else is. */
  lemma {:induction false} ByNameExact(storage: seq<(string, StorageSpec)>, secrets: Secrets)
    requires forall i, j :: 0 <= i < j < |storage| ==> storage[i].0 != storage[j].0
    ensures var m := ByName(storage, secrets);
            && (forall i :: 0 <= i < |storage| ==> storage[i].0 in m && m[storage[i].0] == Erase(storage[i].1, secrets))
            && (forall k <- m :: exists i :: 0 <= i < |storage| && storage[i].0 == k)
    decreases |storage|
  {
    if storage != [] {
      var n := |storage| - 1;
      ByNameExact(storage[..n], secrets);
      var m, before := ByName(storage, secrets), ByName(storage[..n], secrets);
      forall k | k in m ensures exists i :: 0 <= i < |storage| && storage[i].0 == k {
        if k in before {
          var i :| 0 <= i < n && storage[..n][i].0 == k;
          assert storage[i].0 == k;
        }
      }
      forall i | 0 <= i < |storage| ensures storage[i].0 in m && m[storage[i].0] == Erase(storage[i].1, secrets) {
        if i < n {
          assert storage[..n][i] == storage[i];
        }
      }
    }
  }

  lemma DeliveredByContainer(base: map<string, string>, vars: seq<EnvVar>, secrets: Secrets, env: map<string, ConfigValue>)
    requires Lists(vars, env) && forall k <- base :: !(PREFIX <= k)
    ensures Delivered(Container(base, vars, secrets), env, secrets)
    ensures forall k :: k in env ==>
              k in Container(base, vars, secrets) && Container(base, vars, secrets)[k] == Resolve(env[k], secrets)
  {
    forall i: nat, f: Field
      ensures var c := Container(base, vars, secrets);
              match Get(env, i, f)
              case None => Var(i, f) !in c
              case Some(v) => Var(i, f) in c && c[Var(i, f)] == Resolve(v, secrets)
    {
      VarPrefix(i, f);
      ContainerValues(base, vars, secrets, env, Var(i, f));
      assert Var(i, f) in env ==> ToEnvVar(Var(i, f), env[Var(i, f)]).name == Var(i, f);
    }
    forall k | k in env
      ensures k in Container(base, vars, secrets) && Container(base, vars, secrets)[k] == Resolve(env[k], secrets)
    {
      ContainerValues(base, vars, secrets, env, k);
      assert ToEnvVar(k, env[k]).name == k;
    }
  }

  /**
   From the specification of the stores, enumerated in any order, to the factory of the query host:
   the same stores by name and the same default store. Without stores there is one in memory.
   */
  method StorageRoundTrip(id: string, results: map<string, ConfigValue>, defaultStore: string,
                          storage: seq<(string, StorageSpec)>, base: map<string, string>, secrets: Secrets)
    returns (factory: Factory)
    requires forall k <- results :: !(PREFIX <= k)
    requires forall k <- base :: !(PREFIX <= k)
    requires forall s <- storage :: CacheFits(s.1)
    ensures factory.specs == if storage == [] then map["memory" := HostMemory(false)] else ByName(storage, secrets)
    ensures factory.defaultStore == defaultStore
    ensures (forall i, j :: 0 <= i < j < |storage| ==> storage[i].0 != storage[j].0) ==>
              forall name, spec :: (name, spec) in storage ==>
                name in factory.specs &&
                match spec
                case Memory(archive) => factory.specs[name] == HostMemory(archive)
                case Redis(Inline(connection), cache) =>
                  factory.specs[name] == HostRedis(connection, if cache == Some(0) then None else cache)
                case Redis(Secret(secret, key), cache) =>
                  factory.specs[name] == HostRedis(secrets(secret, key), if cache == Some(0) then None else cache)
                case RocksDb(archive, _, directIo) => factory.specs[name] == HostRocksDb(archive, directIo)
  {
    var env := BuildEnv(id, results, defaultStore, storage);
    var vars := MapEnvVars(env);
    var c := Container(base, vars, secrets);
    DeliveredByContainer(base, vars, secrets, env);
    ghost var count;
    factory, count := NewFactory(c);
    hide Var;
    ReadsAllBack(c, env, secrets, storage, |storage|);
    assert Get(env, |storage|, Name) == None;
    assert Var(|storage|, Name) !in c;
    assert count == |storage|;
    assert storage[..|storage|] == storage;
    ByNameNonEmpty(storage, secrets);
    if forall i, j :: 0 <= i < j < |storage| ==> storage[i].0 != storage[j].0 {
      ByNameExact(storage, secrets);
    }
  }

  /** Whether a query on this store has to bootstrap again whenever it starts. */
  predicate IsVolatile(specs: map<string, HostSpec>, defaultStore: string, store: Option<string>) {
    var name := if store.Some? then store.value else defaultStore;
    name in specs && specs[name].HostMemory?
  }

  /** On both sides, exactly the memory stores are volatile. */
  lemma VolatileAsSpecified(storage: seq<(string, StorageSpec)>, secrets: Secrets, defaultStore: string, i: nat)
    requires forall i, j :: 0 <= i < j < |storage| ==> storage[i].0 != storage[j].0
    requires i < |storage|
    ensures IsVolatile(ByName(storage, secrets), defaultStore, Some(storage[i].0)) <==> storage[i].1.Memory?
    ensures defaultStore == storage[i].0 ==>
              (IsVolatile(ByName(storage, secrets), defaultStore, None) <==> storage[i].1.Memory?)
  {
    ByNameExact(storage, secrets);
  }

  lemma ByNameNonEmpty(storage: seq<(string, StorageSpec)>, secrets: Secrets)
    ensures storage != [] ==> ByName(storage, secrets) != map[]
  {
    if storage != [] {
      assert storage[|storage| - 1].0 in ByName(storage, secrets);
    }
  }
}
