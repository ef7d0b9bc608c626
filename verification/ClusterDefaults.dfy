/**
 `checkAndFillCluster` (`pkg/clusterfile/decoder.go`): the pass that defaults the registry settings and
 rewrites the environment list of a cluster, in place, every time a Clusterfile is loaded.
 */
module ClusterDefaults {
  import opened Options
  import opened Text
  import opened Decimal

  datatype RegistryConfig = RegistryConfig(domain: string, port: int, username: string, password: string)

  datatype LocalRegistry = LocalRegistry(config: RegistryConfig, ha: Option<bool>, insecure: Option<bool>, cert: string)

  /** The fields the pass reads or writes; `rest` stands for all the others. */
  datatype Spec = Spec(
    localRegistry: Option<LocalRegistry>,
    externalRegistry: Option<RegistryConfig>,
    env: seq<string>,
    containerRuntime: string,
    dataRoot: string,
    rest: string)

  /** Derives the API server and DNS addresses from the service CIDR; `None` is a parse or range error. */
  type Derive = string -> Option<(string, string)>

  type Env = map<string, string>

  // ---------------------------------------------------------------- the environment list

  /** The variables the pass generates. */
  datatype Key =
    | LocalDomain | LocalPort | LocalURL
    | ExternalDomain | ExternalPort | ExternalURL
    | Domain | Port | URL
    | Runtime | DNSService | KubeService

  function Name(k: Key): string
  {
    match k
    case LocalDomain => "LocalRegistryDomain"
    case LocalPort => "LocalRegistryPort"
    case LocalURL => "LocalRegistryURL"
    case ExternalDomain => "ExternalRegistryDomain"
    case ExternalPort => "ExternalRegistryPort"
    case ExternalURL => "ExternalRegistryURL"
    case Domain => "RegistryDomain"
    case Port => "RegistryPort"
    case URL => "RegistryURL"
    case Runtime => "ContainerRuntime"
    case DNSService => "DNSSvcIP"
    case KubeService => "KubeSvcIP"
  }

  predicate HasPrefix(s: string, p: string)
  {
    |p| <= |s| && s[..|p|] == p
  }

  /** Text that begins with the name of a generated variable: the filter drops such entries. */
  predicate Generated(e: string)
  {
    exists k: Key :: HasPrefix(e, Name(k))
  }

  predicate Foreign(e: string)
  {
    !Generated(e)
  }

  function Filter(env: seq<string>, keep: string -> bool): seq<string>
  {
    if env == [] then []
    else
      var e := env[|env| - 1];
      Filter(env[..|env| - 1], keep) + if keep(e) then [e] else []
  }

  /** `ConvertStringSliceToMap` as a function: later entries win, entries without `=` are skipped. */
  function EnvMap(env: seq<string>): Env
  {
    if env == [] then map[]
    else
      var e := env[|env| - 1];
      var m, i := EnvMap(env[..|env| - 1]), IndexOf(e, '=');
      if i == |e| then m else m[e[..i] := e[i + 1..]]
  }

  lemma Snoc<T>(s: seq<T>, i: nat)
    requires i < |s|
    ensures s[..i + 1][..i] == s[..i] && s[..i + 1][i] == s[i]
  {
  }

  /** `ConvertStringSliceToMap` */
  method ConvertStringSliceToMap(list: seq<string>) returns (ret: Env)
    ensures ret == EnvMap(list)
  {
    ret := map[];
    for k := 0 to |list|
      invariant ret == EnvMap(list[..k])
    {
      Snoc(list, k);
      var i := IndexOf(list[k], '=');
      if i < |list[k]| {
        ret := ret[list[k][..i] := list[k][i + 1..]];
      }
    }
    assert list[..|list|] == list;
  }

  lemma EnvMapSnoc(front: seq<string>, e: string)
    ensures EnvMap(front + [e]) ==
            if '=' in e then EnvMap(front)[e[..IndexOf(e, '=')] := e[IndexOf(e, '=') + 1..]] else EnvMap(front)
  {
    assert (front + [e])[..|front|] == front;
    IndexNone(e, '=');
  }

  /** The entry sets the variable. */
  predicate Sets(e: string, name: string)
  {
    name + "=" <= e
  }

  lemma SetsExactly(e: string, name: string)
    requires '=' !in name
    ensures Sets(e, name) <==> '=' in e && e[..IndexOf(e, '=')] == name
    ensures Sets(e, name) ==> e[IndexOf(e, '=') + 1..] == e[|name| + 1..]
  {
    IndexNone(e, '=');
    if Sets(e, name) {
      assert e == name + ['='] + e[|name| + 1..];
      IndexAfter(name, '=', e[|name| + 1..]);
    }
    if '=' in e {
      Cut(e, IndexOf(e, '='));
    }
  }

  /** A variable is there exactly when some entry sets it, and the last such entry gives its value. */
  lemma {:induction false} EnvMapExactly(env: seq<string>, name: string)
    requires '=' !in name
    ensures name in EnvMap(env) <==> exists i :: 0 <= i < |env| && Sets(env[i], name)
    ensures forall i :: 0 <= i < |env| && Sets(env[i], name) && (forall j :: i < j < |env| ==> !Sets(env[j], name)) ==>
              name in EnvMap(env) && EnvMap(env)[name] == env[i][|name| + 1..]
  {
    if env != [] {
      var front, e := env[..|env| - 1], env[|env| - 1];
      assert env == front + [e];
      EnvMapExactly(front, name);
      EnvMapSnoc(front, e);
      SetsExactly(e, name);
      assert env[|front|] == e && forall i :: 0 <= i < |front| ==> env[i] == front[i];
    }
  }

  function Entry(key: Key, value: string): string
  {
    Name(key) + "=" + value
  }

  function PortText(port: int): string
  {
    if port < 0 then "-" + Itoa(-port) else Itoa(port)
  }

  function RegistryURL(c: RegistryConfig): string
  {
    if c.port == 0 then c.domain else JoinHostPort(c.domain, PortText(c.port))
  }

  // ---------------------------------------------------------------- the pass as a function

  function DefaultedLocal(l: LocalRegistry): LocalRegistry
  {
    var domain := if l.config.domain == "" then "sea.hub" else l.config.domain;
    var port := if l.config.port == 0 then 5000 else l.config.port;
    LocalRegistry(l.config.(domain := domain, port := port),
                  Some(if l.ha.None? then true else l.ha.value),
                  Some(if l.insecure.None? then false else l.insecure.value),
                  l.cert)
  }

  const EMPTY_LOCAL := LocalRegistry(RegistryConfig("", 0, "", ""), None, None, "")

  function FilledLocal(s: Spec): Option<LocalRegistry>
  {
    match s.localRegistry
    case Some(l) => Some(DefaultedLocal(l))
    case None => if s.externalRegistry.None? then Some(DefaultedLocal(EMPTY_LOCAL)) else None
  }

  /** The registry in use: the external one when it is given. */
  function Active(local: Option<LocalRegistry>, external: Option<RegistryConfig>): RegistryConfig
  {
    if external.Some? then external.value
    else if local.Some? then local.value.config
    else RegistryConfig("", 0, "", "")
  }

  function ActivePort(c: RegistryConfig): string
  {
    if c.port == 0 then "" else PortText(c.port)
  }

  /** Generated variables in the order in which they are appended. */
  type Vars = seq<(Key, string)>

  function Entries(vars: Vars): seq<string>
  {
    if vars == [] then []
    else Entries(vars[..|vars| - 1]) + [Entry(vars[|vars| - 1].0, vars[|vars| - 1].1)]
  }

  function WithServices(vars: Vars, services: Option<(string, string)>): Vars
  {
    match services
    case None => vars
    case Some((kube, dns)) => vars + [(KubeService, kube)] + [(DNSService, dns)]
  }

  function WithLocal(vars: Vars, local: Option<LocalRegistry>): Vars
  {
    match local
    case None => vars
    case Some(l) =>
      vars + [(LocalDomain, l.config.domain)] + [(LocalPort, PortText(l.config.port))]
        + [(LocalURL, RegistryURL(l.config))]
  }

  function WithExternal(vars: Vars, external: Option<RegistryConfig>): Vars
  {
    match external
    case None => vars
    case Some(c) =>
      vars + [(ExternalDomain, c.domain)] + [(ExternalPort, PortText(c.port))] + [(ExternalURL, RegistryURL(c))]
  }

  function WithActive(vars: Vars, c: RegistryConfig): Vars
  {
    vars + [(Domain, c.domain)] + [(Port, ActivePort(c))] + [(URL, RegistryURL(c))]
  }

  function WithRuntime(vars: Vars, runtime: string): Vars
  {
    if runtime == "" then vars else vars + [(Runtime, runtime)]
  }

  function RegistryVars(vars: Vars, local: Option<LocalRegistry>, external: Option<RegistryConfig>): Vars
  {
    WithActive(WithExternal(WithLocal(vars, local), external), Active(local, external))
  }

  function Derived(local: Option<LocalRegistry>, external: Option<RegistryConfig>, services: Option<(string,
                   string)>, runtime: string): Vars
  {
    WithRuntime(RegistryVars(WithServices([], services), local, external), runtime)
  }

  /** The service addresses to publish: nothing without a `SvcCIDR`, an error when they cannot be derived. */
  function Services(m: Env, derive: Derive): Option<Option<(string, string)>>
  {
    if "SvcCIDR" !in m || m["SvcCIDR"] == "" then Some(None)
    else
      match derive(m["SvcCIDR"])
      case None => None
      case Some(p) => Some(Some(p))
  }

  function FilledRoot(dataRoot: string): string
  {
    if dataRoot == "" then "/var/lib/sealer/data" else dataRoot
  }

  /** `checkAndFillCluster` on values; `None` is its error. */
  function Fill(s: Spec, derive: Derive): Option<Spec>
  {
    if s.externalRegistry.Some? && s.externalRegistry.value.domain == "" then None
    else
      var kept := Filter(s.env, Foreign);
      match Services(EnvMap(kept), derive)
      case None => None
      case Some(services) =>
        var vars := Derived(FilledLocal(s), s.externalRegistry, services, s.containerRuntime);
        Some(Spec(FilledLocal(s), s.externalRegistry, kept + Entries(vars), s.containerRuntime, FilledRoot(s.dataRoot),
          s.rest))
  }

  lemma FillsTo(s: Spec, derive: Derive, services: Option<(string, string)>, t: Spec)
    requires s.externalRegistry.Some? ==> s.externalRegistry.value.domain != ""
    requires Services(EnvMap(Filter(s.env, Foreign)), derive) == Some(services)
    requires t.localRegistry == FilledLocal(s) && t.externalRegistry == s.externalRegistry && t.rest == s.rest
    requires t.containerRuntime == s.containerRuntime && t.dataRoot == FilledRoot(s.dataRoot)
    requires t.env == Filter(s.env, Foreign)
                      + Entries(Derived(t.localRegistry, t.externalRegistry, services, t.containerRuntime))
    ensures Fill(s, derive) == Some(t)
  {
  }

  // ---------------------------------------------------------------- the pass in place

  class Cluster {
    var localRegistry: Option<LocalRegistry>
    var externalRegistry: Option<RegistryConfig>
    var env: seq<string>
    var containerRuntime: string
    var dataRoot: string
    var rest: string

    function View(): Spec
      reads this
    {
      Spec(localRegistry, externalRegistry, env, containerRuntime, dataRoot, rest)
    }

    constructor (s: Spec)
      ensures View() == s
    {
      localRegistry := s.localRegistry;
      externalRegistry := s.externalRegistry;
      env := s.env;
      containerRuntime := s.containerRuntime;
      dataRoot := s.dataRoot;
      rest := s.rest;
    }

    method FillRegistry()
      modifies this`localRegistry
      ensures localRegistry == old(FilledLocal(View()))
    {
      if localRegistry == None && externalRegistry == None {
        localRegistry := Some(EMPTY_LOCAL);
      }
      if localRegistry.Some? {
        var l := localRegistry.value;
        if l.config.domain == "" {
          l := l.(config := l.config.(domain := "sea.hub"));
        }
        if l.config.port == 0 {
          l := l.(config := l.config.(port := 5000));
        }
        if l.insecure == None {
          l := l.(insecure := Some(false));
        }
        if l.ha == None {
          l := l.(ha := Some(true));
        }
        localRegistry := Some(l);
      }
    }

    method FilterEnv()
      modifies this`env
      ensures env == Filter(old(env), Foreign)
    {
      var newEnv := [];
      for k := 0 to |env|
        invariant env == old(env) && newEnv == Filter(env[..k], Foreign)
      {
        Snoc(env, k);
        if Foreign(env[k]) {
          newEnv := newEnv + [env[k]];
        }
      }
      assert env[..|env|] == env;
      env := newEnv;
    }

    /** `env = append(env, "key=value")`, after the variables `vars` were appended to `base`. */
    method Append(key: Key, value: string, ghost base: seq<string>, ghost vars: Vars)
      requires env == base + Entries(vars)
      modifies this`env
      ensures env == base + Entries(vars + [(key, value)])
    {
      EntriesSnoc(base, vars, key, value);
      env := env + [Entry(key, value)];
    }

    method AppendLocalEnv(l: LocalRegistry, ghost base: seq<string>, ghost vars: Vars)
      requires env == base + Entries(vars)
      modifies this`env
      ensures env == base + Entries(WithLocal(vars, Some(l)))
    {
      var c := l.config;
      Append(LocalDomain, c.domain, base, vars);
      ghost var v := vars + [(LocalDomain, c.domain)];
      Append(LocalPort, PortText(c.port), base, v);
      v := v + [(LocalPort, PortText(c.port))];
      Append(LocalURL, RegistryURL(c), base, v);
    }

    method AppendExternalEnv(c: RegistryConfig, ghost base: seq<string>, ghost vars: Vars)
      requires env == base + Entries(vars)
      modifies this`env
      ensures env == base + Entries(WithExternal(vars, Some(c)))
    {
      Append(ExternalDomain, c.domain, base, vars);
      ghost var v := vars + [(ExternalDomain, c.domain)];
      Append(ExternalPort, PortText(c.port), base, v);
      v := v + [(ExternalPort, PortText(c.port))];
      Append(ExternalURL, RegistryURL(c), base, v);
    }

    method AppendActiveEnv(c: RegistryConfig, ghost base: seq<string>, ghost vars: Vars)
      requires env == base + Entries(vars)
      modifies this`env
      ensures env == base + Entries(WithActive(vars, c))
    {
      Append(Domain, c.domain, base, vars);
      ghost var v := vars + [(Domain, c.domain)];
      Append(Port, ActivePort(c), base, v);
      v := v + [(Port, ActivePort(c))];
      Append(URL, RegistryURL(c), base, v);
    }

    method AppendRegistryEnv(ghost base: seq<string>, ghost vars: Vars)
      requires env == base + Entries(vars)
      modifies this`env
      ensures env == base + Entries(RegistryVars(vars, localRegistry, externalRegistry))
    {
      ghost var v := vars;
      var c := RegistryConfig("", 0, "", "");
      if localRegistry.Some? {
        c := localRegistry.value.config;
        AppendLocalEnv(localRegistry.value, base, v);
        v := WithLocal(v, localRegistry);
      }
      if externalRegistry.Some? {
        c := externalRegistry.value;
        AppendExternalEnv(c, base, v);
        v := WithExternal(v, externalRegistry);
      }
      AppendActiveEnv(c, base, v);
    }

    method AppendServiceEnv(derive: Derive) returns (ok: bool)
      modifies this`env
      ensures ok <==> Services(EnvMap(old(env)), derive).Some?
      ensures ok ==> env == old(env) + Entries(WithServices([], Services(EnvMap(old(env)), derive).value))
    {
      var m := ConvertStringSliceToMap(env);
      assert env == old(env) + Entries([]);
      if "SvcCIDR" in m && m["SvcCIDR"] != "" {
        match derive(m["SvcCIDR"])
        case None =>
          return false;
        case Some((kube, dns)) =>
          Append(KubeService, kube, old(env), []);
          Append(DNSService, dns, old(env), [] + [(KubeService, kube)]);
      }
      return true;
    }

    /** What is appended after the service addresses, and the data root. */
    method FillRest(ghost base: seq<string>, ghost vars: Vars)
      requires env == base + Entries(vars)
      modifies this`env, this`dataRoot
      ensures env == base + Entries(WithRuntime(RegistryVars(vars, localRegistry, externalRegistry), containerRuntime))
      ensures dataRoot == FilledRoot(old(dataRoot))
    {
      AppendRegistryEnv(base, vars);
      if containerRuntime != "" {
        Append(Runtime, containerRuntime, base, RegistryVars(vars, localRegistry, externalRegistry));
      }
      if dataRoot == "" {
        dataRoot := "/var/lib/sealer/data";
      }
    }

    /** `checkAndFillCluster` */
    method CheckAndFill(derive: Derive) returns (ok: bool)
      modifies this
      ensures ok <==> Fill(old(View()), derive).Some?
      ensures ok ==> View() == Fill(old(View()), derive).value
    {
      FillRegistry();
      if externalRegistry.Some? && externalRegistry.value.domain == "" {
        return false;
      }
      FilterEnv();
      ghost var kept := env;
      ok := AppendServiceEnv(derive);
      if ok {
        ghost var services := Services(EnvMap(kept), derive).value;
        FillRest(kept, WithServices([], services));
        FillsTo(old(View()), derive, services, View());
      }
    }
  }

  // ---------------------------------------------------------------- defaulting is a fixed point

  lemma EntriesSnoc(base: seq<string>, vars: Vars, key: Key, value: string)
    ensures base + Entries(vars) + [Entry(key, value)] == base + Entries(vars + [(key, value)])
  {
    assert (vars + [(key, value)])[..|vars|] == vars;
  }

  lemma {:induction false} FilterConcat(a: seq<string>, b: seq<string>, keep: string -> bool)
    ensures Filter(a + b, keep) == Filter(a, keep) + Filter(b, keep)
  {
    if b == [] {
      assert a + b == a;
    } else {
      FilterConcat(a, b[..|b| - 1], keep);
      assert (a + b)[..|a + b| - 1] == a + b[..|b| - 1];
    }
  }

  /** The filter drops nothing else: every entry it keeps is there as often as before. */
  lemma {:induction false} FilterCounts(env: seq<string>, keep: string -> bool, e: string)
    ensures multiset(Filter(env, keep))[e] == if keep(e) then multiset(env)[e] else 0
  {
    if env != [] {
      var front, last := env[..|env| - 1], env[|env| - 1];
      assert env == front + [last];
      FilterCounts(front, keep, e);
    }
  }

  lemma {:induction false} FilterTwice(env: seq<string>, keep: string -> bool)
    ensures Filter(Filter(env, keep), keep) == Filter(env, keep)
  {
    if env != [] {
      var front, e := env[..|env| - 1], env[|env| - 1];
      FilterTwice(front, keep);
      if keep(e) {
        assert (Filter(front, keep) + [e])[..|Filter(front, keep)|] == Filter(front, keep);
      } else {
        assert Filter(env, keep) == Filter(front, keep);
      }
    }
  }

  lemma EntryIsGenerated(key: Key, value: string)
    ensures !Foreign(Entry(key, value))
  {
    assert HasPrefix(Entry(key, value), Name(key));
  }

  lemma {:induction false} FilterDropsEntries(vars: Vars)
    ensures Filter(Entries(vars), Foreign) == []
  {
    if vars != [] {
      var front, v := vars[..|vars| - 1], vars[|vars| - 1];
      FilterDropsEntries(front);
      EntryIsGenerated(v.0, v.1);
      assert Entries(vars)[..|Entries(vars)| - 1] == Entries(front);
    }
  }

  lemma FilterOfFilled(env: seq<string>, vars: Vars)
    ensures Filter(Filter(env, Foreign) + Entries(vars), Foreign) == Filter(env, Foreign)
  {
    FilterTwice(env, Foreign);
    FilterConcat(Filter(env, Foreign), Entries(vars), Foreign);
    FilterDropsEntries(vars);
  }

  lemma FilledLocalTwice(s: Spec, t: Spec)
    requires t.localRegistry == FilledLocal(s) && t.externalRegistry == s.externalRegistry
    ensures FilledLocal(t) == FilledLocal(s)
  {
  }

  /** Whenever the pass succeeds, running it again succeeds and changes nothing, the order of the environment
      list included. */
  lemma FillIsFixedPoint(s: Spec, derive: Derive)
    requires Fill(s, derive).Some?
    ensures Fill(Fill(s, derive).value, derive) == Fill(s, derive)
  {
    var t, kept := Fill(s, derive).value, Filter(s.env, Foreign);
    var services := Services(EnvMap(kept), derive).value;
    FilledLocalTwice(s, t);
    FilterOfFilled(s.env, Derived(FilledLocal(s), s.externalRegistry, services, s.containerRuntime));
  }

  // ---------------------------------------------------------------- what the environment means afterwards

  lemma NameHasNoSeparator(k: Key)
    ensures '=' !in Name(k)
  {
  }

  lemma PrefixOfKey(e: string, p: string)
    requires '=' in e && '=' !in p
    ensures HasPrefix(e, p) <==> HasPrefix(e[..IndexOf(e, '=')], p)
  {
    var i := IndexOf(e, '=');
    IndexNone(e, '=');
    if |p| > i {
      assert p[i] != '=';
      assert |p| <= |e| ==> e[..|p|][i] == '=';
    } else {
      assert e[..i][..|p|] == e[..|p|];
    }
  }

  /** The filter decides by the key alone. */
  lemma FilterIsKeyWise(e: string)
    requires '=' in e
    ensures Foreign(e) <==> Foreign(e[..IndexOf(e, '=')])
  {
    forall k: Key ensures HasPrefix(e, Name(k)) <==> HasPrefix(e[..IndexOf(e, '=')], Name(k)) {
      NameHasNoSeparator(k);
      PrefixOfKey(e, Name(k));
    }
  }

  function Restrict(m: Env, keep: string -> bool): Env
  {
    map k | k in m && keep(k) :: m[k]
  }

  ghost predicate KeyWise(keep: string -> bool, e: string)
  {
    '=' in e ==> (keep(e) <==> keep(e[..IndexOf(e, '=')]))
  }

  lemma RestrictUpdate(m: Env, k: string, v: string, keep: string -> bool)
    ensures Restrict(m[k := v], keep) == if keep(k) then Restrict(m, keep)[k := v] else Restrict(m, keep)
  {
  }

  lemma {:induction false} FilterRestricts(env: seq<string>, keep: string -> bool)
    requires forall e :: KeyWise(keep, e)
    ensures EnvMap(Filter(env, keep)) == Restrict(EnvMap(env), keep)
  {
    if env != [] {
      var front, e := env[..|env| - 1], env[|env| - 1];
      FilterRestricts(front, keep);
      IndexNone(e, '=');
      assert KeyWise(keep, e);
      if '=' in e {
        RestrictUpdate(EnvMap(front), e[..IndexOf(e, '=')], e[IndexOf(e, '=') + 1..], keep);
      }
      if keep(e) {
        assert Filter(env, keep)[..|Filter(env, keep)| - 1] == Filter(front, keep);
      } else {
        assert Filter(env, keep) == Filter(front, keep);
      }
    }
  }

  function Put(m: Env, vars: Vars): Env
  {
    if vars == [] then m
    else Put(m, vars[..|vars| - 1])[Name(vars[|vars| - 1].0) := vars[|vars| - 1].1]
  }

  lemma EnvMapEntry(env: seq<string>, key: Key, value: string)
    ensures EnvMap(env + [Entry(key, value)]) == EnvMap(env)[Name(key) := value]
  {
    NameHasNoSeparator(key);
    assert (env + [Entry(key, value)])[..|env|] == env;
    IndexAfter(Name(key), '=', value);
    assert Entry(key, value) == Name(key) + ['='] + value;
  }

  lemma PutSnoc(m: Env, vars: Vars, key: Key, value: string)
    ensures Put(m, vars + [(key, value)]) == Put(m, vars)[Name(key) := value]
  {
    assert (vars + [(key, value)])[..|vars|] == vars;
  }

  lemma EnvMapStep(env: seq<string>, front: Vars, key: Key, value: string)
    requires EnvMap(env + Entries(front)) == Put(EnvMap(env), front)
    ensures EnvMap(env + Entries(front + [(key, value)])) == Put(EnvMap(env), front + [(key, value)])
  {
    EntriesSnoc(env, front, key, value);
    EnvMapEntry(env + Entries(front), key, value);
    PutSnoc(EnvMap(env), front, key, value);
  }

  lemma {:induction false} EnvMapEntries(env: seq<string>, vars: Vars)
    ensures EnvMap(env + Entries(vars)) == Put(EnvMap(env), vars)
  {
    if vars == [] {
      assert env + Entries(vars) == env;
    } else {
      var front, v := vars[..|vars| - 1], vars[|vars| - 1];
      assert vars == front + [(v.0, v.1)];
      EnvMapEntries(env, front);
      EnvMapStep(env, front, v.0, v.1);
    }
  }

  lemma SvcCIDRIsForeign()
    ensures Foreign("SvcCIDR")
  {
    forall k: Key ensures !HasPrefix("SvcCIDR", Name(k)) {
      assert |Name(k)| > 7;
    }
  }

  lemma KeptEnvironment(env: seq<string>)
    ensures EnvMap(Filter(env, Foreign)) == Restrict(EnvMap(env), Foreign)
  {
    forall e ensures KeyWise(Foreign, e) {
      if '=' in e {
        FilterIsKeyWise(e);
      }
    }
    FilterRestricts(env, Foreign);
  }

  lemma ServicesIgnoreGenerated(m: Env, derive: Derive)
    ensures Services(Restrict(m, Foreign), derive) == Services(m, derive)
  {
    SvcCIDRIsForeign();
  }

  lemma FilledParts(s: Spec, t: Spec, derive: Derive)
    requires Fill(s, derive) == Some(t)
    ensures var kept := Filter(s.env, Foreign);
            Services(EnvMap(kept), derive).Some?
            && t.env == kept + Entries(Derived(t.localRegistry, t.externalRegistry,
              Services(EnvMap(kept), derive).value, t.containerRuntime))
  {
  }

  /** After the pass the environment is: the user's variables whose name does not begin like a generated one,
      overridden by the variables derived from the defaulted settings.  The service CIDR is the user's. */
  lemma FilledEnvironment(s: Spec, t: Spec, derive: Derive)
    requires Fill(s, derive) == Some(t)
    ensures var services := Services(EnvMap(s.env), derive);
            services.Some?
            && EnvMap(t.env) == Put(Restrict(EnvMap(s.env), Foreign),
              Derived(t.localRegistry, t.externalRegistry, services.value, t.containerRuntime))
  {
    KeptEnvironment(s.env);
    ServicesIgnoreGenerated(EnvMap(s.env), derive);
    FilledParts(s, t, derive);
    var services := Services(EnvMap(s.env), derive).value;
    EnvMapEntries(Filter(s.env, Foreign), Derived(t.localRegistry, t.externalRegistry, services, t.containerRuntime));
  }

  lemma NameInjective(a: Key, b: Key)
    requires a != b
    ensures Name(a) != Name(b)
  {
    assert |Name(a)| != |Name(b)| || Name(a)[0] != Name(b)[0];
  }

  ghost predicate Holds(m: Env, k: Key, v: string)
  {
    Name(k) in m && m[Name(k)] == v
  }

  /** The place of a variable in the order in which the pass appends them. */
  function Rank(k: Key): nat
  {
    match k
    case KubeService => 0 case DNSService => 1
    case LocalDomain => 2 case LocalPort => 3 case LocalURL => 4
    case ExternalDomain => 5 case ExternalPort => 6 case ExternalURL => 7
    case Domain => 8 case Port => 9 case URL => 10
    case Runtime => 11
  }

  /** Each variable at most once, in that order, and all before `bound`. */
  ghost predicate Ranked(vars: Vars, bound: nat)
  {
    && (forall i :: 0 <= i < |vars| ==> Rank(vars[i].0) < bound)
    && (forall i, j :: 0 <= i < j < |vars| ==> Rank(vars[i].0) < Rank(vars[j].0))
  }

  lemma RankedSnoc(vars: Vars, key: Key, value: string, bound: nat)
    requires Ranked(vars, Rank(key)) && Rank(key) < bound
    ensures Ranked(vars + [(key, value)], bound) && vars <= vars + [(key, value)]
  {
  }

  lemma RankedThree(vars: Vars, p: (Key, string), q: (Key, string), r: (Key, string), bound: nat)
    requires Ranked(vars, bound) && bound <= Rank(p.0) < Rank(q.0) < Rank(r.0)
    ensures Ranked(vars + [p] + [q] + [r], Rank(r.0) + 1) && vars <= vars + [p] + [q] + [r]
  {
    RankedSnoc(vars, p.0, p.1, Rank(q.0));
    RankedSnoc(vars + [p], q.0, q.1, Rank(r.0));
    RankedSnoc(vars + [p] + [q], r.0, r.1, Rank(r.0) + 1);
  }

  lemma ServicesRanked(services: Option<(string, string)>)
    ensures Ranked(WithServices([], services), 2)
  {
  }

  lemma LocalRanked(vars: Vars, local: Option<LocalRegistry>)
    requires Ranked(vars, 2)
    ensures Ranked(WithLocal(vars, local), 5) && vars <= WithLocal(vars, local)
  {
    if local.Some? {
      var c := local.value.config;
      RankedThree(vars, (LocalDomain, c.domain), (LocalPort, PortText(c.port)), (LocalURL, RegistryURL(c)), 2);
    }
  }

  lemma ExternalRanked(vars: Vars, external: Option<RegistryConfig>)
    requires Ranked(vars, 5)
    ensures Ranked(WithExternal(vars, external), 8) && vars <= WithExternal(vars, external)
  {
    if external.Some? {
      var c := external.value;
      RankedThree(vars, (ExternalDomain, c.domain), (ExternalPort, PortText(c.port)), (ExternalURL, RegistryURL(c)), 5);
    }
  }

  lemma ActiveRanked(vars: Vars, c: RegistryConfig, runtime: string)
    requires Ranked(vars, 8)
    ensures Ranked(WithRuntime(WithActive(vars, c), runtime), 12) && vars <= WithRuntime(WithActive(vars, c), runtime)
  {
    RankedThree(vars, (Domain, c.domain), (Port, ActivePort(c)), (URL, RegistryURL(c)), 8);
    if runtime != "" {
      RankedSnoc(WithActive(vars, c), Runtime, runtime, 12);
    }
  }

  lemma {:induction false} PutLooksUp(m: Env, vars: Vars, bound: nat, i: nat)
    requires Ranked(vars, bound) && i < |vars|
    ensures Holds(Put(m, vars), vars[i].0, vars[i].1)
  {
    var last := |vars| - 1;
    if i < last {
      PutLooksUp(m, vars[..last], bound, i);
      assert Rank(vars[i].0) < Rank(vars[last].0);
      NameInjective(vars[i].0, vars[last].0);
    }
  }

  /** `vars` are among the variables that end up in the environment with their own values. */
  ghost predicate AllHold(m: Env, vars: Vars)
  {
    forall i :: 0 <= i < |vars| ==> Holds(m, vars[i].0, vars[i].1)
  }

  lemma PutHolds(m: Env, vars: Vars, part: Vars, bound: nat)
    requires Ranked(vars, bound) && part <= vars
    ensures AllHold(Put(m, vars), part)
  {
    forall i | 0 <= i < |part| ensures Holds(Put(m, vars), part[i].0, part[i].1) {
      PutLooksUp(m, vars, bound, i);
    }
  }

  lemma DerivedHold(m: Env, local: Option<LocalRegistry>, external: Option<RegistryConfig>, services: Option<(string,
                    string)>, runtime: string)
    ensures AllHold(Put(m, Derived(local, external, services, runtime)), Derived(local, external, services, runtime))
  {
    var v1 := WithServices([], services);
    var v2 := WithLocal(v1, local);
    var v3 := WithExternal(v2, external);
    ServicesRanked(services);
    LocalRanked(v1, local);
    ExternalRanked(v2, external);
    ActiveRanked(v3, Active(local, external), runtime);
    var all := Derived(local, external, services, runtime);
    PutHolds(m, all, all, 12);
  }

  /** The three variables of a registry. */
  ghost predicate Publishes(m: Env, domain: Key, port: Key, url: Key, c: RegistryConfig)
  {
    Holds(m, domain, c.domain) && Holds(m, url, RegistryURL(c))
    && Holds(m, port, if port == Port && c.port == 0 then "" else PortText(c.port))
  }

  lemma ServicesHold(m: Env, kube: string, dns: string, rest: Vars)
    requires AllHold(m, rest) && WithServices([], Some((kube, dns))) <= rest
    ensures Holds(m, KubeService, kube) && Holds(m, DNSService, dns)
  {
    assert rest[0] == (KubeService, kube) && rest[1] == (DNSService, dns);
  }

  lemma LocalHolds(m: Env, vars: Vars, l: LocalRegistry, rest: Vars)
    requires AllHold(m, rest) && WithLocal(vars, Some(l)) <= rest
    ensures Publishes(m, LocalDomain, LocalPort, LocalURL, l.config)
  {
    var n := |vars|;
    var w := WithLocal(vars, Some(l));
    assert w[n] == rest[n] && w[n + 1] == rest[n + 1] && w[n + 2] == rest[n + 2];
  }

  lemma ExternalHolds(m: Env, vars: Vars, c: RegistryConfig, rest: Vars)
    requires AllHold(m, rest) && WithExternal(vars, Some(c)) <= rest
    ensures Publishes(m, ExternalDomain, ExternalPort, ExternalURL, c)
  {
    var n := |vars|;
    var w := WithExternal(vars, Some(c));
    assert w[n] == rest[n] && w[n + 1] == rest[n + 1] && w[n + 2] == rest[n + 2];
  }

  lemma ActiveHolds(m: Env, vars: Vars, c: RegistryConfig, runtime: string)
    requires AllHold(m, WithRuntime(WithActive(vars, c), runtime))
    ensures Publishes(m, Domain, Port, URL, c) && (runtime != "" ==> Holds(m, Runtime, runtime))
  {
    var n := |vars|;
    var w, all := WithActive(vars, c), WithRuntime(WithActive(vars, c), runtime);
    assert w[n] == all[n] && w[n + 1] == all[n + 1] && w[n + 2] == all[n + 2];
    if runtime != "" {
      assert all[n + 3] == (Runtime, runtime);
    }
  }

  ghost predicate Published(m: Env, local: Option<LocalRegistry>, external: Option<RegistryConfig>,
                            services: Option<(string, string)>, runtime: string)
  {
    && (services.Some? ==> Holds(m, KubeService, services.value.0) && Holds(m, DNSService, services.value.1))
    && (local.Some? ==> Publishes(m, LocalDomain, LocalPort, LocalURL, local.value.config))
    && (external.Some? ==> Publishes(m, ExternalDomain, ExternalPort, ExternalURL, external.value))
    && (external.Some? ==> Publishes(m, Domain, Port, URL, external.value))
    && (external.None? && local.Some? ==> Publishes(m, Domain, Port, URL, local.value.config))
    && (runtime != "" ==> Holds(m, Runtime, runtime))
  }

  lemma PartsHold(m: Env, local: Option<LocalRegistry>, external: Option<RegistryConfig>, services: Option<(string,
                  string)>, runtime: string)
    requires AllHold(m, Derived(local, external, services, runtime))
    ensures Published(m, local, external, services, runtime)
  {
    var v1 := WithServices([], services);
    var v2 := WithLocal(v1, local);
    var v3 := WithExternal(v2, external);
    var all := Derived(local, external, services, runtime);
    ServicesRanked(services);
    LocalRanked(v1, local);
    ExternalRanked(v2, external);
    ActiveRanked(v3, Active(local, external), runtime);
    if services.Some? {
      ServicesHold(m, services.value.0, services.value.1, all);
    }
    if local.Some? {
      LocalHolds(m, v1, local.value, all);
    }
    if external.Some? {
      ExternalHolds(m, v2, external.value, all);
    }
    ActiveHolds(m, v3, Active(local, external), runtime);
  }

  lemma KeysHold(s: Spec, t: Spec, derive: Derive)
    requires Fill(s, derive) == Some(t)
    ensures Services(EnvMap(s.env), derive).Some?
    ensures Published(EnvMap(t.env), t.localRegistry, t.externalRegistry, Services(EnvMap(s.env), derive).value,
            t.containerRuntime)
    ensures t.localRegistry.Some? || t.externalRegistry.Some?
  {
    FilledEnvironment(s, t, derive);
    var services := Services(EnvMap(s.env), derive).value;
    DerivedHold(Restrict(EnvMap(s.env), Foreign), t.localRegistry, t.externalRegistry, services, t.containerRuntime);
    PartsHold(EnvMap(t.env), t.localRegistry, t.externalRegistry, services, t.containerRuntime);
  }

  // ---------------------------------------------------------------- the variables by their names

  ghost predicate Says(m: Env, name: string, value: string)
  {
    name in m && m[name] == value
  }

  /** The decimal text of a port. */
  ghost predicate PortIs(text: string, port: int)
  {
    if port < 0 then exists t :: text == "-" + t && Shortest(t) && Value(t) == -port
    else Shortest(text) && Value(text) == port
  }

  lemma PortTextIs(port: int)
    ensures PortIs(PortText(port), port)
  {
    var n: nat := if port < 0 then -port else port;
    ItoaShortest(n);
    ValueItoa(n);
  }

  /** The three variables of a registry: its domain, its port in decimal, and the domain, a colon and the port, or the
      domain alone without a port. */
  ghost predicate Registers(m: Env, domain: string, port: string, url: string, c: RegistryConfig)
  {
    && Says(m, domain, c.domain)
    && port in m && (c.port != 0 ==> PortIs(m[port], c.port))
    && (c.port == 0 ==> Says(m, url, c.domain))
    && (c.port != 0 && ':' !in c.domain ==> Says(m, url, c.domain + ":" + m[port]))
    && (c.port != 0 && ':' in c.domain ==> Says(m, url, "[" + c.domain + "]:" + m[port]))
  }

  lemma PublishesRegisters(m: Env, domain: Key, port: Key, url: Key, c: RegistryConfig)
    requires Publishes(m, domain, port, url, c)
    ensures Registers(m, Name(domain), Name(port), Name(url), c)
  {
    PortTextIs(c.port);
  }

  ghost predicate ServicesAs(m: Env, services: Option<(string, string)>)
  {
    services.Some? ==> Says(m, "KubeSvcIP", services.value.0) && Says(m, "DNSSvcIP", services.value.1)
  }

  ghost predicate LocalAs(m: Env, local: Option<LocalRegistry>)
  {
    local.Some? ==> Registers(m, "LocalRegistryDomain", "LocalRegistryPort", "LocalRegistryURL", local.value.config)
  }

  /** Without a port the text of it is 0 for the external registry and empty for the registry in use. */
  ghost predicate ExternalAs(m: Env, external: Option<RegistryConfig>)
  {
    external.Some? ==>
      Registers(m, "ExternalRegistryDomain", "ExternalRegistryPort", "ExternalRegistryURL", external.value)
      && (external.value.port == 0 ==> Says(m, "ExternalRegistryPort", "0"))
  }

  /** The registry in use: the external one when it is given. */
  ghost predicate ActiveAs(m: Env, local: Option<LocalRegistry>, external: Option<RegistryConfig>)
  {
    external.Some? || local.Some? ==>
      var c := if external.Some? then external.value else local.value.config;
      Registers(m, "RegistryDomain", "RegistryPort", "RegistryURL", c)
      && (c.port == 0 ==> Says(m, "RegistryPort", ""))
  }

  /** The variables of a filled cluster, by the names that images and scripts read. */
  ghost predicate PublishedAs(m: Env, local: Option<LocalRegistry>, external: Option<RegistryConfig>,
                              services: Option<(string, string)>, runtime: string)
  {
    && ServicesAs(m, services) && LocalAs(m, local) && ExternalAs(m, external) && ActiveAs(m, local, external)
    && (runtime != "" ==> Says(m, "ContainerRuntime", runtime))
  }

  lemma LocalNamed(m: Env, l: LocalRegistry)
    requires Publishes(m, LocalDomain, LocalPort, LocalURL, l.config)
    ensures LocalAs(m, Some(l))
  {
    PublishesRegisters(m, LocalDomain, LocalPort, LocalURL, l.config);
  }

  lemma ExternalNamed(m: Env, c: RegistryConfig)
    requires Publishes(m, ExternalDomain, ExternalPort, ExternalURL, c)
    ensures ExternalAs(m, Some(c))
  {
    PublishesRegisters(m, ExternalDomain, ExternalPort, ExternalURL, c);
    assert Itoa(0) == "0";
  }

  lemma ActiveNamed(m: Env, local: Option<LocalRegistry>, external: Option<RegistryConfig>, c: RegistryConfig)
    requires Publishes(m, Domain, Port, URL, c)
    requires external == Some(c) || (external.None? && local.Some? && local.value.config == c)
    ensures ActiveAs(m, local, external)
  {
    PublishesRegisters(m, Domain, Port, URL, c);
  }

  lemma ServicesNamed(m: Env, kube: string, dns: string, runtime: string)
    ensures Holds(m, KubeService, kube) && Holds(m, DNSService, dns) ==> ServicesAs(m, Some((kube, dns)))
    ensures Holds(m, Runtime, runtime) ==> Says(m, "ContainerRuntime", runtime)
  {
  }

  lemma NamedAs(m: Env, local: Option<LocalRegistry>, external: Option<RegistryConfig>,
                services: Option<(string, string)>, runtime: string)
    requires Published(m, local, external, services, runtime)
    ensures PublishedAs(m, local, external, services, runtime)
  {
    ServicesNamed(m, if services.Some? then services.value.0 else "", if services.Some? then services.value.1 else "",
      runtime);
    if local.Some? {
      LocalNamed(m, local.value);
    }
    if external.Some? {
      ExternalNamed(m, external.value);
      ActiveNamed(m, local, external, external.value);
    } else if local.Some? {
      ActiveNamed(m, local, external, local.value.config);
    }
  }

  /** Whatever the user's environment says, afterwards every generated variable has the value of the setting it
      stands for: each registry its own, the plain registry variables those of the external registry when there
      is one and of the defaulted local registry otherwise, and the service addresses those of the service CIDR. */
  lemma VariablesArePublished(s: Spec, t: Spec, derive: Derive)
    requires Fill(s, derive) == Some(t)
    ensures Services(EnvMap(s.env), derive).Some?
    ensures PublishedAs(EnvMap(t.env), t.localRegistry, t.externalRegistry, Services(EnvMap(s.env), derive).value,
            t.containerRuntime)
    ensures t.localRegistry.Some? || t.externalRegistry.Some?
  {
    KeysHold(s, t, derive);
    NamedAs(EnvMap(t.env), t.localRegistry, t.externalRegistry, Services(EnvMap(s.env), derive).value,
      t.containerRuntime);
  }

  /** Which texts the filter takes for generated variables. */
  lemma ForeignExactly(e: string)
    ensures Foreign(e) <==>
              && !("LocalRegistryDomain" <= e) && !("LocalRegistryPort" <= e) && !("LocalRegistryURL" <= e)
              && !("ExternalRegistryDomain" <= e) && !("ExternalRegistryPort" <= e) && !("ExternalRegistryURL" <= e)
              && !("RegistryDomain" <= e) && !("RegistryPort" <= e) && !("RegistryURL" <= e)
              && !("ContainerRuntime" <= e) && !("DNSSvcIP" <= e) && !("KubeSvcIP" <= e)
  {
    assert HasPrefix(e, Name(LocalDomain)) <==> "LocalRegistryDomain" <= e;
    assert HasPrefix(e, Name(LocalPort)) <==> "LocalRegistryPort" <= e;
    assert HasPrefix(e, Name(LocalURL)) <==> "LocalRegistryURL" <= e;
    assert HasPrefix(e, Name(ExternalDomain)) <==> "ExternalRegistryDomain" <= e;
    assert HasPrefix(e, Name(ExternalPort)) <==> "ExternalRegistryPort" <= e;
    assert HasPrefix(e, Name(ExternalURL)) <==> "ExternalRegistryURL" <= e;
    assert HasPrefix(e, Name(Domain)) <==> "RegistryDomain" <= e;
    assert HasPrefix(e, Name(Port)) <==> "RegistryPort" <= e;
    assert HasPrefix(e, Name(URL)) <==> "RegistryURL" <= e;
    assert HasPrefix(e, Name(Runtime)) <==> "ContainerRuntime" <= e;
    assert HasPrefix(e, Name(DNSService)) <==> "DNSSvcIP" <= e;
    assert HasPrefix(e, Name(KubeService)) <==> "KubeSvcIP" <= e;
  }

  function KeysOf(vars: Vars): set<Key>
  {
    set i | 0 <= i < |vars| :: vars[i].0
  }

  lemma KeysSnoc(vars: Vars, key: Key, value: string)
    ensures KeysOf(vars + [(key, value)]) == KeysOf(vars) + {key}
  {
    assert forall i :: 0 <= i < |vars| ==> (vars + [(key, value)])[i] == vars[i];
    assert (vars + [(key, value)])[|vars|] == (key, value);
  }

  lemma KeysThree(vars: Vars, p: (Key, string), q: (Key, string), r: (Key, string))
    ensures KeysOf(vars + [p] + [q] + [r]) == KeysOf(vars) + {p.0, q.0, r.0}
  {
    KeysSnoc(vars, p.0, p.1);
    KeysSnoc(vars + [p], q.0, q.1);
    KeysSnoc(vars + [p] + [q], r.0, r.1);
  }

  lemma LocalKeys(vars: Vars, local: Option<LocalRegistry>)
    ensures KeysOf(WithLocal(vars, local)) ==
            KeysOf(vars) + if local.Some? then {LocalDomain, LocalPort, LocalURL} else {}
  {
    if local.Some? {
      var c := local.value.config;
      KeysThree(vars, (LocalDomain, c.domain), (LocalPort, PortText(c.port)), (LocalURL, RegistryURL(c)));
    }
  }

  lemma ExternalKeys(vars: Vars, external: Option<RegistryConfig>)
    ensures KeysOf(WithExternal(vars, external)) ==
            KeysOf(vars) + if external.Some? then {ExternalDomain, ExternalPort, ExternalURL} else {}
  {
    if external.Some? {
      var c := external.value;
      KeysThree(vars, (ExternalDomain, c.domain), (ExternalPort, PortText(c.port)), (ExternalURL, RegistryURL(c)));
    }
  }

  lemma ServiceKeys(services: Option<(string, string)>)
    ensures KeysOf(WithServices([], services)) == if services.Some? then {KubeService, DNSService} else {}
  {
    if services.Some? {
      KeysSnoc([], KubeService, services.value.0);
      KeysSnoc([] + [(KubeService, services.value.0)], DNSService, services.value.1);
    }
  }

  /** The settings a variable stands for. */
  predicate Expected(k: Key, local: bool, external: bool, services: bool, runtime: bool)
  {
    match k
    case KubeService | DNSService => services
    case LocalDomain | LocalPort | LocalURL => local
    case ExternalDomain | ExternalPort | ExternalURL => external
    case Domain | Port | URL => true
    case Runtime => runtime
  }

  function ExpectedKeys(local: bool, external: bool, services: bool, runtime: bool): set<Key>
  {
    (if services then {KubeService, DNSService} else {})
    + (if local then {LocalDomain, LocalPort, LocalURL} else {})
    + (if external then {ExternalDomain, ExternalPort, ExternalURL} else {})
    + {Domain, Port, URL} + (if runtime then {Runtime} else {})
  }

  lemma ExpectedInKeys(k: Key, local: bool, external: bool, services: bool, runtime: bool)
    ensures k in ExpectedKeys(local, external, services, runtime) <==>
              Expected(k, local, external, services, runtime)
  {
  }

  lemma DerivedKeys(local: Option<LocalRegistry>, external: Option<RegistryConfig>, services: Option<(string,
                    string)>, runtime: string)
    ensures KeysOf(Derived(local, external, services, runtime)) ==
            ExpectedKeys(local.Some?, external.Some?, services.Some?, runtime != "")
  {
    var v1 := WithServices([], services);
    var v2 := WithLocal(v1, local);
    var v3 := WithExternal(v2, external);
    var c := Active(local, external);
    ServiceKeys(services);
    LocalKeys(v1, local);
    ExternalKeys(v2, external);
    KeysThree(v3, (Domain, c.domain), (Port, ActivePort(c)), (URL, RegistryURL(c)));
    if runtime != "" {
      KeysSnoc(WithActive(v3, c), Runtime, runtime);
    }
  }

  lemma {:induction false} PutKeys(m: Env, vars: Vars, k: Key)
    ensures Name(k) in Put(m, vars) <==> Name(k) in m || k in KeysOf(vars)
  {
    if vars != [] {
      var front, v := vars[..|vars| - 1], vars[|vars| - 1];
      assert vars == front + [(v.0, v.1)];
      KeysSnoc(front, v.0, v.1);
      PutKeys(m, front, k);
      if k != v.0 {
        NameInjective(k, v.0);
      }
    }
  }

  lemma {:induction false} PutLeaves(m: Env, vars: Vars, name: string)
    requires Foreign(name)
    ensures name in Put(m, vars) <==> name in m
    ensures name in m ==> Put(m, vars)[name] == m[name]
  {
    if vars != [] {
      var front, v := vars[..|vars| - 1], vars[|vars| - 1];
      PutLeaves(m, front, name);
      assert HasPrefix(Name(v.0), Name(v.0));
      assert Name(v.0) != name;
    }
  }

  /** Each generated variable is there exactly when it is expected. */
  ghost predicate Present(m: Env, local: bool, external: bool, services: bool, runtime: bool)
  {
    forall k: Key :: Name(k) in m <==> Expected(k, local, external, services, runtime)
  }

  lemma PutPresent(had: Env, vars: Vars, k: Key)
    ensures Name(k) in Put(Restrict(had, Foreign), vars) <==> k in KeysOf(vars)
  {
    PutKeys(Restrict(had, Foreign), vars, k);
    assert HasPrefix(Name(k), Name(k));
  }

  /** All three names are in the environment, or none is. */
  ghost predicate Together(m: Env, a: string, b: string, c: string, there: bool)
  {
    (a in m <==> there) && (b in m <==> there) && (c in m <==> there)
  }

  ghost predicate ServicesThere(m: Env, there: bool)
  {
    Together(m, "KubeSvcIP", "DNSSvcIP", "DNSSvcIP", there)
  }

  ghost predicate LocalThere(m: Env, there: bool)
  {
    Together(m, "LocalRegistryDomain", "LocalRegistryPort", "LocalRegistryURL", there)
  }

  ghost predicate ExternalThere(m: Env, there: bool)
  {
    Together(m, "ExternalRegistryDomain", "ExternalRegistryPort", "ExternalRegistryURL", there)
  }

  ghost predicate ActiveThere(m: Env)
  {
    Together(m, "RegistryDomain", "RegistryPort", "RegistryURL", true)
  }

  ghost predicate RuntimeThere(m: Env, there: bool)
  {
    "ContainerRuntime" in m <==> there
  }

  lemma FilledPresent(s: Spec, t: Spec, derive: Derive)
    requires Fill(s, derive) == Some(t)
    ensures Services(EnvMap(s.env), derive).Some?
    ensures Present(EnvMap(t.env), t.localRegistry.Some?, t.externalRegistry.Some?,
            Services(EnvMap(s.env), derive).value.Some?, t.containerRuntime != "")
  {
    FilledEnvironment(s, t, derive);
    var services := Services(EnvMap(s.env), derive).value;
    var vars := Derived(t.localRegistry, t.externalRegistry, services, t.containerRuntime);
    DerivedKeys(t.localRegistry, t.externalRegistry, services, t.containerRuntime);
    var local, external := t.localRegistry.Some?, t.externalRegistry.Some?;
    forall k: Key
      ensures Name(k) in EnvMap(t.env) <==>
                Expected(k, local, external, services.Some?, t.containerRuntime != "")
    {
      PutPresent(EnvMap(s.env), vars, k);
      ExpectedInKeys(k, local, external, services.Some?, t.containerRuntime != "");
    }
  }

  lemma PresentTogether(m: Env, local: bool, external: bool, services: bool, runtime: bool, a: Key, b: Key, c: Key,
                        there: bool)
    requires Present(m, local, external, services, runtime)
    requires forall k <- {a, b, c} :: Expected(k, local, external, services, runtime) <==> there
    ensures Together(m, Name(a), Name(b), Name(c), there)
  {
    assert a in {a, b, c} && b in {a, b, c} && c in {a, b, c};
  }

  lemma LocalPresent(m: Env, local: bool, external: bool, services: bool, runtime: bool)
    requires Present(m, local, external, services, runtime)
    ensures LocalThere(m, local)
  {
    PresentTogether(m, local, external, services, runtime, LocalDomain, LocalPort, LocalURL, local);
  }

  lemma ExternalPresent(m: Env, local: bool, external: bool, services: bool, runtime: bool)
    requires Present(m, local, external, services, runtime)
    ensures ExternalThere(m, external)
  {
    PresentTogether(m, local, external, services, runtime, ExternalDomain, ExternalPort, ExternalURL, external);
  }

  lemma ActivePresent(m: Env, local: bool, external: bool, services: bool, runtime: bool)
    requires Present(m, local, external, services, runtime)
    ensures ActiveThere(m)
  {
    PresentTogether(m, local, external, services, runtime, Domain, Port, URL, true);
  }

  lemma OthersPresent(m: Env, local: bool, external: bool, services: bool, runtime: bool)
    requires Present(m, local, external, services, runtime)
    ensures ServicesThere(m, services) && RuntimeThere(m, runtime)
  {
    PresentTogether(m, local, external, services, runtime, KubeService, DNSService, DNSService, services);
    PresentTogether(m, local, external, services, runtime, Runtime, Runtime, Runtime, runtime);
  }

  /** No generated variable survives from the user's environment: each one is there exactly when the setting it stands
      for is. */
  lemma OnlyOursAreGenerated(s: Spec, t: Spec, derive: Derive)
    requires Fill(s, derive) == Some(t)
    ensures Services(EnvMap(s.env), derive).Some?
    ensures LocalThere(EnvMap(t.env), t.localRegistry.Some?) && ExternalThere(EnvMap(t.env), t.externalRegistry.Some?)
    ensures ServicesThere(EnvMap(t.env), Services(EnvMap(s.env), derive).value.Some?)
    ensures ActiveThere(EnvMap(t.env)) && RuntimeThere(EnvMap(t.env), t.containerRuntime != "")
  {
    FilledPresent(s, t, derive);
    var services := Services(EnvMap(s.env), derive).value;
    var m, local, external := EnvMap(t.env), t.localRegistry.Some?, t.externalRegistry.Some?;
    LocalPresent(m, local, external, services.Some?, t.containerRuntime != "");
    ExternalPresent(m, local, external, services.Some?, t.containerRuntime != "");
    ActivePresent(m, local, external, services.Some?, t.containerRuntime != "");
    OthersPresent(m, local, external, services.Some?, t.containerRuntime != "");
  }

  /** Every variable whose name does not begin like a generated one keeps its value, and none is added. */
  lemma UserVariablesStay(s: Spec, t: Spec, derive: Derive, name: string)
    requires Fill(s, derive) == Some(t) && Foreign(name)
    ensures var m, had := EnvMap(t.env), EnvMap(s.env);
            (name in m <==> name in had) && (name in m ==> m[name] == had[name])
  {
    FilledEnvironment(s, t, derive);
    var services := Services(EnvMap(s.env), derive).value;
    PutLeaves(Restrict(EnvMap(s.env), Foreign),
      Derived(t.localRegistry, t.externalRegistry, services, t.containerRuntime), name);
  }

  // ---------------------------------------------------------------- defaults

  /** Every setting the user made is kept, and every other one gets the documented default. */
  lemma DefaultsFillGapsOnly(s: Spec, derive: Derive)
    requires Fill(s, derive).Some?
    ensures var t := Fill(s, derive).value;
            && t.externalRegistry == s.externalRegistry && t.containerRuntime == s.containerRuntime && t.rest == s.rest
            && (t.localRegistry.None? <==> s.localRegistry.None? && s.externalRegistry.Some?)
            && (s.dataRoot != "" ==> t.dataRoot == s.dataRoot) && t.dataRoot != ""
            && (t.localRegistry.Some? ==>
                  var l := t.localRegistry.value;
                  l.config.domain != "" && l.config.port != 0 && l.ha.Some? && l.insecure.Some?)
            && (s.localRegistry.Some? ==>
                  var k, l := s.localRegistry.value, t.localRegistry.value;
                  && l.config.domain == (if k.config.domain != "" then k.config.domain else "sea.hub")
                  && l.config.port == (if k.config.port != 0 then k.config.port else 5000)
                  && l.ha == (if k.ha.Some? then k.ha else Some(true))
                  && l.insecure == (if k.insecure.Some? then k.insecure else Some(false))
                  && l.cert == k.cert && l.config.username == k.config.username
                  && l.config.password == k.config.password)
            && (s.localRegistry.None? && t.localRegistry.Some? ==>
                  t.localRegistry == Some(LocalRegistry(RegistryConfig("sea.hub", 5000, "", ""), Some(true),
                    Some(false), "")))
            && (s.dataRoot == "" ==> t.dataRoot == "/var/lib/sealer/data")
  {
  }
}
