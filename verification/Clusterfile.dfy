/**
 Loading and saving a Clusterfile (`pkg/clusterfile`).  A Clusterfile is a stream of documents; reading one
 document into a record and writing it back are inverse, except that a field marked `omitempty` is not
 written when it is empty.  The only such field whose absence the loader can tell from emptiness is the
 command list of an application's launch section.
 */
module Clusterfile {
  import opened Options
  import opened ClusterDefaults

  datatype Config = Config(path: string, data: string, rest: string)

  datatype AppFile = AppFile(path: string, data: string, strategy: string)

  /** `cmds` is `None` for a nil slice. */
  datatype Launch = Launch(cmds: Option<seq<string>>)

  datatype AppConfig = AppConfig(name: string, launch: Option<Launch>, files: seq<AppFile>, rest: string)

  datatype Application = Application(configs: seq<AppConfig>, rest: string)

  datatype KubeadmKind =
    | InitConfiguration
    | JoinConfiguration
    | ClusterConfiguration
    | KubeletConfiguration
    | KubeProxyConfiguration

  /** One document of the stream.  `Unreadable` stands for any decoding error. */
  datatype Doc =
    | Null
    | Unreadable
    | ClusterDoc(cluster: Spec)
    | ConfigDoc(config: Config)
    | PluginDoc(plugin: string)
    | AppDoc(app: Application)
    | KubeadmDoc(kind: KubeadmKind, body: string)
    | OtherDoc(text: string)

  /** A kubeadm part is `None` while its kind is empty. */
  datatype Kubeadm = Kubeadm(
    initConfig: Option<string>, joinConfig: Option<string>, clusterConfig: Option<string>, kubelet: Option<string>,
      kubeProxy: Option<string>)

  datatype File = File(cluster: Option<Spec>, configs: seq<Config>, kubeadm: Kubeadm, plugins: seq<string>,
                       app: Option<Application>)

  const BLANK := File(None, [], Kubeadm(None, None, None, None, None), [], None)

  // ---------------------------------------------------------------- decoding

  predicate FileOk(f: AppFile)
  {
    f.data != "" && f.path != ""
  }

  predicate AppConfigOk(c: AppConfig)
  {
    c.name != ""
    && (c.launch.Some? ==> c.launch.value.cmds.Some?)
    && forall i :: 0 <= i < |c.files| ==> FileOk(c.files[i])
  }

  predicate AppOk(a: Application)
  {
    forall i :: 0 <= i < |a.configs| ==> AppConfigOk(a.configs[i])
  }

  predicate ConfigOk(c: Config)
  {
    c.path != "" && c.data != ""
  }

  function SetPart(k: Kubeadm, kind: KubeadmKind, body: string): Kubeadm
  {
    match kind
    case InitConfiguration => k.(initConfig := Some(body))
    case JoinConfiguration => k.(joinConfig := Some(body))
    case ClusterConfiguration => k.(clusterConfig := Some(body))
    case KubeletConfiguration => k.(kubelet := Some(body))
    case KubeProxyConfiguration => k.(kubeProxy := Some(body))
  }

  /** One turn of the decode loop; `None` is an error. */
  function DecodeDoc(f: File, d: Doc, derive: Derive): Option<File>
  {
    match d
    case Null => Some(f)
    case Unreadable => None
    case ClusterDoc(c) =>
      (match Fill(c, derive)
       case None => None
       case Some(filled) => Some(f.(cluster := Some(filled))))
    case ConfigDoc(c) => if ConfigOk(c) then Some(f.(configs := f.configs + [c])) else None
    case PluginDoc(p) => Some(f.(plugins := f.plugins + [p]))
    case AppDoc(a) => if AppOk(a) then Some(f.(app := Some(a))) else None
    case KubeadmDoc(kind, body) => Some(f.(kubeadm := SetPart(f.kubeadm, kind, body)))
    case OtherDoc(_) => Some(f)
  }

  function Decode(f: File, docs: seq<Doc>, derive: Derive): Option<File>
    decreases |docs|
  {
    if docs == [] then Some(f)
    else
      match DecodeDoc(f, docs[0], derive)
      case None => None
      case Some(g) => Decode(g, docs[1..], derive)
  }

  // ---------------------------------------------------------------- saving

  /** `yaml.Marshal` leaves an empty command list out. */
  function OmitLaunch(l: Launch): Launch
  {
    if l.cmds == Some([]) then Launch(None) else l
  }

  function OmitConfig(c: AppConfig): AppConfig
  {
    match c.launch
    case None => c
    case Some(l) => c.(launch := Some(OmitLaunch(l)))
  }

  function Omit(a: Application): Application
  {
    a.(configs := seq(|a.configs|, i requires 0 <= i < |a.configs| => OmitConfig(a.configs[i])))
  }

  function ConfigDocs(cs: seq<Config>): seq<Doc>
  {
    seq(|cs|, i requires 0 <= i < |cs| => ConfigDoc(cs[i]))
  }

  function PluginDocs(ps: seq<string>): seq<Doc>
  {
    seq(|ps|, i requires 0 <= i < |ps| => PluginDoc(ps[i]))
  }

  function ClusterDocs(c: Option<Spec>): seq<Doc>
  {
    if c.Some? then [ClusterDoc(c.value)] else [Null]
  }

  function AppDocs(a: Option<Application>): seq<Doc>
  {
    if a.Some? then [AppDoc(Omit(a.value))] else []
  }

  function PartDocs(kind: KubeadmKind, body: Option<string>): seq<Doc>
  {
    if body.Some? then [KubeadmDoc(kind, body.value)] else []
  }

  function KubeadmDocs(k: Kubeadm): seq<Doc>
  {
    PartDocs(InitConfiguration, k.initConfig) + PartDocs(JoinConfiguration, k.joinConfig)
    + PartDocs(ClusterConfiguration, k.clusterConfig) + PartDocs(KubeletConfiguration, k.kubelet)
    + PartDocs(KubeProxyConfiguration, k.kubeProxy)
  }

  /** The documents `SaveAll` writes, in order. */
  function Saved(f: File): seq<Doc>
  {
    ClusterDocs(f.cluster) + AppDocs(f.app) + ConfigDocs(f.configs) + PluginDocs(f.plugins) + KubeadmDocs(f.kubeadm)
  }

  /** Where a document stands in a saved file: the cluster, the application, configs, plugins, kubeadm parts. */
  function Place(d: Doc): nat
  {
    match d
    case ClusterDoc(_) => 0
    case Null => 0
    case AppDoc(_) => 1
    case ConfigDoc(_) => 2
    case PluginDoc(_) => 3
    case KubeadmDoc(_, _) => 4
    case _ => 5
  }

  ghost predicate InPlaces(docs: seq<Doc>, low: nat, high: nat)
  {
    && (forall i :: 0 <= i < |docs| ==> low <= Place(docs[i]) <= high)
    && forall i, j :: 0 <= i < j < |docs| ==> Place(docs[i]) <= Place(docs[j])
  }

  lemma PlacesAppend(a: seq<Doc>, b: seq<Doc>, low: nat, middle: nat, high: nat)
    requires InPlaces(a, low, middle) && InPlaces(b, middle, high) && low <= middle <= high
    ensures InPlaces(a + b, low, high)
  {
  }

  lemma PartPlaces(kind: KubeadmKind, body: Option<string>)
    ensures InPlaces(PartDocs(kind, body), 4, 4)
  {
  }

  lemma KubeadmPlaces(k: Kubeadm)
    ensures InPlaces(KubeadmDocs(k), 4, 4)
  {
    var p1, p2 := PartDocs(InitConfiguration, k.initConfig), PartDocs(JoinConfiguration, k.joinConfig);
    var p3, p4 := PartDocs(ClusterConfiguration, k.clusterConfig), PartDocs(KubeletConfiguration, k.kubelet);
    PartPlaces(InitConfiguration, k.initConfig);
    PartPlaces(JoinConfiguration, k.joinConfig);
    PartPlaces(ClusterConfiguration, k.clusterConfig);
    PartPlaces(KubeletConfiguration, k.kubelet);
    PartPlaces(KubeProxyConfiguration, k.kubeProxy);
    PlacesAppend(p1, p2, 4, 4, 4);
    PlacesAppend(p1 + p2, p3, 4, 4, 4);
    PlacesAppend(p1 + p2 + p3, p4, 4, 4, 4);
    PlacesAppend(p1 + p2 + p3 + p4, PartDocs(KubeProxyConfiguration, k.kubeProxy), 4, 4, 4);
  }

  lemma ListPlaces(cs: seq<Config>, ps: seq<string>)
    ensures InPlaces(ConfigDocs(cs), 2, 2) && InPlaces(PluginDocs(ps), 3, 3)
  {
  }

  lemma HeadPlaces(c: Option<Spec>, a: Option<Application>)
    ensures InPlaces(ClusterDocs(c) + AppDocs(a), 0, 1)
  {
  }

  lemma PlacesWiden(docs: seq<Doc>, low: nat, high: nat, low': nat, high': nat)
    requires InPlaces(docs, low, high) && low' <= low && high <= high'
    ensures InPlaces(docs, low', high')
  {
  }

  lemma PlacesFour(a: seq<Doc>, b: seq<Doc>, c: seq<Doc>, d: seq<Doc>)
    requires InPlaces(a, 0, 1) && InPlaces(b, 2, 2) && InPlaces(c, 3, 3) && InPlaces(d, 4, 4)
    ensures InPlaces(a + b + c + d, 0, 4)
  {
    PlacesWiden(b, 2, 2, 1, 2);
    PlacesWiden(c, 3, 3, 2, 3);
    PlacesWiden(d, 4, 4, 3, 4);
    PlacesAppend(a, b, 0, 1, 2);
    PlacesAppend(a + b, c, 0, 2, 3);
    PlacesAppend(a + b + c, d, 0, 3, 4);
  }

  /** A saved file has its documents in this order. */
  lemma SavedInOrder(f: File)
    ensures InPlaces(Saved(f), 0, 4)
  {
    HeadPlaces(f.cluster, f.app);
    ListPlaces(f.configs, f.plugins);
    KubeadmPlaces(f.kubeadm);
    PlacesFour(ClusterDocs(f.cluster) + AppDocs(f.app), ConfigDocs(f.configs), PluginDocs(f.plugins),
      KubeadmDocs(f.kubeadm));
  }

  // ---------------------------------------------------------------- the object

  class ClusterFile {
    var cluster: Option<Spec>
    var configs: seq<Config>
    var kubeadm: Kubeadm
    var plugins: seq<string>
    var app: Option<Application>

    function View(): File
      reads this
    {
      File(cluster, configs, kubeadm, plugins, app)
    }

    constructor ()
      ensures View() == BLANK
    {
      cluster, configs, kubeadm, plugins, app := None, [], BLANK.kubeadm, [], None;
    }

    method SetCluster(c: Spec)
      modifies this`cluster
      ensures View() == old(View()).(cluster := Some(c))
    {
      cluster := Some(c);
    }

    method SetApplication(a: Application)
      modifies this`app
      ensures View() == old(View()).(app := Some(a))
    {
      app := Some(a);
    }

    /** One turn of the loop of `decodeClusterFile`. */
    method DecodeOne(d: Doc, derive: Derive) returns (ok: bool)
      modifies this
      ensures ok <==> DecodeDoc(old(View()), d, derive).Some?
      ensures ok ==> View() == DecodeDoc(old(View()), d, derive).value
    {
      ok := true;
      match d
      case Null | OtherDoc(_) =>
      case Unreadable =>
        ok := false;
      case ClusterDoc(c) =>
        var loaded := new Cluster(c);
        ok := loaded.CheckAndFill(derive);
        if ok {
          cluster := Some(loaded.View());
        }
      case ConfigDoc(c) =>
        if c.path == "" || c.data == "" {
          return false;
        }
        configs := configs + [c];
      case PluginDoc(p) =>
        plugins := plugins + [p];
      case AppDoc(a) =>
        ok := CheckApplication(a);
        if ok {
          app := Some(a);
        }
      case KubeadmDoc(kind, body) =>
        kubeadm := SetPart(kubeadm, kind, body);
    }

    /** `decodeClusterFile` */
    method DecodeAll(docs: seq<Doc>, derive: Derive) returns (ok: bool)
      modifies this
      ensures ok <==> Decode(old(View()), docs, derive).Some?
      ensures ok ==> View() == Decode(old(View()), docs, derive).value
    {
      for i := 0 to |docs|
        invariant Decode(old(View()), docs, derive) == Decode(View(), docs[i..], derive)
      {
        ok := DecodeOne(docs[i], derive);
        assert docs[i..][0] == docs[i] && docs[i..][1..] == docs[i + 1..];
        if !ok {
          return false;
        }
      }
      return true;
    }

    /** `SaveAll`: the documents it joins. */
    method SaveAll() returns (docs: seq<Doc>)
      ensures docs == Saved(View())
    {
      docs := ClusterDocs(cluster);
      if app.Some? {
        docs := docs + [AppDoc(Omit(app.value))];
      }
      ghost var head := docs;
      for i := 0 to |configs|
        invariant docs == head + ConfigDocs(configs[..i])
      {
        docs := docs + [ConfigDoc(configs[i])];
      }
      assert configs[..|configs|] == configs;
      head := docs;
      for i := 0 to |plugins|
        invariant docs == head + PluginDocs(plugins[..i])
      {
        docs := docs + [PluginDoc(plugins[i])];
      }
      assert plugins[..|plugins|] == plugins;
      docs := docs + KubeadmDocs(kubeadm);
    }
  }

  method CheckApplication(a: Application) returns (ok: bool)
    ensures ok <==> AppOk(a)
  {
    for i := 0 to |a.configs|
      invariant forall j :: 0 <= j < i ==> AppConfigOk(a.configs[j])
    {
      var c := a.configs[i];
      if c.name == "" || (c.launch.Some? && c.launch.value.cmds == None) {
        return false;
      }
      for j := 0 to |c.files|
        invariant forall k :: 0 <= k < j ==> FileOk(c.files[k])
      {
        if c.files[j].data == "" || c.files[j].path == "" {
          return false;
        }
      }
    }
    return true;
  }

  // ---------------------------------------------------------------- what is refused, and what is read

  /** An application whose configuration lacks a name, or has a launch section without commands, or a file without data
      or path. */
  ghost predicate BadConfig(c: AppConfig)
  {
    c.name == "" || c.launch == Some(Launch(None)) || exists j :: 0 <= j < |c.files| && BadFile(c.files[j])
  }

  predicate BadFile(f: AppFile)
  {
    f.data == "" || f.path == ""
  }

  /** The documents a Clusterfile may not hold. */
  ghost predicate Bad(d: Doc, derive: Derive)
  {
    match d
    case Unreadable => true
    case ClusterDoc(c) => Fill(c, derive) == None
    case ConfigDoc(c) => c.path == "" || c.data == ""
    case AppDoc(a) => exists i :: 0 <= i < |a.configs| && BadConfig(a.configs[i])
    case _ => false
  }

  lemma BadApp(a: Application)
    ensures AppOk(a) <==> !exists i :: 0 <= i < |a.configs| && BadConfig(a.configs[i])
  {
    forall i | 0 <= i < |a.configs| ensures AppConfigOk(a.configs[i]) <==> !BadConfig(a.configs[i]) {
      var c := a.configs[i];
      forall j | 0 <= j < |c.files| ensures FileOk(c.files[j]) <==> !BadFile(c.files[j]) {
      }
    }
  }

  lemma DecodeDocExactly(f: File, d: Doc, derive: Derive)
    ensures DecodeDoc(f, d, derive) == None <==> Bad(d, derive)
  {
    if d.AppDoc? {
      BadApp(d.app);
    }
  }

  /** A stream is refused exactly when one of its documents is bad; documents of other kinds are skipped. */
  lemma {:induction false} DecodeRefusesExactly(f: File, docs: seq<Doc>, derive: Derive)
    ensures Decode(f, docs, derive) == None <==> exists i :: 0 <= i < |docs| && Bad(docs[i], derive)
    decreases |docs|
  {
    if docs != [] {
      DecodeDocExactly(f, docs[0], derive);
      if !Bad(docs[0], derive) {
        DecodeRefusesExactly(DecodeDoc(f, docs[0], derive).value, docs[1..], derive);
        assert docs == [docs[0]] + docs[1..];
        assert forall i :: 0 < i < |docs| ==> docs[i] == docs[1..][i - 1];
      }
    }
  }

  /** The documents of one sort, in order. */
  function Those(docs: seq<Doc>, sort: Doc -> bool): seq<Doc>
  {
    if docs == [] then []
    else
      var d := docs[|docs| - 1];
      Those(docs[..|docs| - 1], sort) + if sort(d) then [d] else []
  }

  function Part(k: Kubeadm, kind: KubeadmKind): Option<string>
  {
    match kind
    case InitConfiguration => k.initConfig
    case JoinConfiguration => k.joinConfig
    case ClusterConfiguration => k.clusterConfig
    case KubeletConfiguration => k.kubelet
    case KubeProxyConfiguration => k.kubeProxy
  }

  predicate IsCluster(d: Doc) { d.ClusterDoc? }

  predicate IsApp(d: Doc) { d.AppDoc? }

  predicate IsConfig(d: Doc) { d.ConfigDoc? }

  predicate IsPlugin(d: Doc) { d.PluginDoc? }

  function IsPart(kind: KubeadmKind): Doc -> bool
  {
    (d: Doc) => d.KubeadmDoc? && d.kind == kind
  }

  /** The document at `i` is the last of its sort. */
  ghost predicate LastOf(docs: seq<Doc>, sort: Doc -> bool, i: nat)
  {
    i < |docs| && sort(docs[i]) && forall j :: i < j < |docs| ==> !sort(docs[j])
  }

  ghost predicate NoneOf(docs: seq<Doc>, sort: Doc -> bool)
  {
    forall i :: 0 <= i < |docs| ==> !sort(docs[i])
  }

  lemma LastSnoc(front: seq<Doc>, d: Doc, sort: Doc -> bool)
    ensures NoneOf(front + [d], sort) <==> NoneOf(front, sort) && !sort(d)
    ensures forall i: nat :: LastOf(front + [d], sort, i) <==>
              if sort(d) then i == |front| else LastOf(front, sort, i)
  {
    var docs := front + [d];
    assert docs[|front|] == d && forall j :: 0 <= j < |front| ==> docs[j] == front[j];
    forall i: nat ensures LastOf(docs, sort, i) <==> if sort(d) then i == |front| else LastOf(front, sort, i) {
      if sort(d) && i < |front| {
        assert sort(docs[|front|]);
      }
    }
  }

  /** The last cluster, filled. */
  ghost predicate ReadsCluster(docs: seq<Doc>, cluster: Option<Spec>, derive: Derive)
  {
    && (NoneOf(docs, IsCluster) ==> cluster == None)
    && (forall i: nat :: LastOf(docs, IsCluster, i) ==> cluster.Some? && cluster == Fill(docs[i].cluster, derive))
  }

  /** The last application. */
  ghost predicate ReadsApp(docs: seq<Doc>, app: Option<Application>)
  {
    && (NoneOf(docs, IsApp) ==> app == None)
    && (forall i: nat :: LastOf(docs, IsApp, i) ==> app == Some(docs[i].app))
  }

  /** All configs and all plugins, in their order. */
  ghost predicate ReadsLists(docs: seq<Doc>, f: File)
  {
    ConfigDocs(f.configs) == Those(docs, IsConfig) && PluginDocs(f.plugins) == Those(docs, IsPlugin)
  }

  ghost predicate ReadsPart(docs: seq<Doc>, k: Kubeadm, kind: KubeadmKind)
  {
    && (NoneOf(docs, IsPart(kind)) ==> Part(k, kind) == None)
    && (forall i: nat :: LastOf(docs, IsPart(kind), i) ==> Part(k, kind) == Some(docs[i].body))
  }

  lemma DecodeSnoc(front: seq<Doc>, d: Doc, f: File, derive: Derive) returns (m: File)
    requires Decode(BLANK, front + [d], derive) == Some(f)
    ensures Decode(BLANK, front, derive) == Some(m) && DecodeDoc(m, d, derive) == Some(f)
  {
    DecodeConcat(BLANK, front, [d], derive);
    m := Decode(BLANK, front, derive).value;
    DecodeOneDoc(m, d, derive);
  }

  lemma ClusterSnoc(front: seq<Doc>, d: Doc, was: Option<Spec>, now: Option<Spec>, derive: Derive)
    requires ReadsCluster(front, was, derive)
    requires if d.ClusterDoc? then now.Some? && now == Fill(d.cluster, derive) else now == was
    ensures ReadsCluster(front + [d], now, derive)
  {
    LastSnoc(front, d, IsCluster);
  }

  lemma AppSnoc(front: seq<Doc>, d: Doc, was: Option<Application>, now: Option<Application>)
    requires ReadsApp(front, was) && now == if d.AppDoc? then Some(d.app) else was
    ensures ReadsApp(front + [d], now)
  {
    LastSnoc(front, d, IsApp);
  }

  lemma PartSnoc(front: seq<Doc>, d: Doc, was: Kubeadm, now: Kubeadm, kind: KubeadmKind)
    requires ReadsPart(front, was, kind)
    requires Part(now, kind) == if IsPart(kind)(d) then Some(d.body) else Part(was, kind)
    ensures ReadsPart(front + [d], now, kind)
  {
    LastSnoc(front, d, IsPart(kind));
  }

  /** What one document changes. */
  lemma DocEffect(f: File, d: Doc, g: File, kind: KubeadmKind, derive: Derive)
    requires DecodeDoc(f, d, derive) == Some(g)
    ensures if d.ClusterDoc? then g.cluster.Some? && g.cluster == Fill(d.cluster, derive) else g.cluster == f.cluster
    ensures g.app == if d.AppDoc? then Some(d.app) else f.app
    ensures Part(g.kubeadm, kind) == if IsPart(kind)(d) then Some(d.body) else Part(f.kubeadm, kind)
  {
  }

  lemma ListsStep(front: seq<Doc>, d: Doc, f: File, g: File, derive: Derive)
    requires ReadsLists(front, f) && DecodeDoc(f, d, derive) == Some(g)
    ensures ReadsLists(front + [d], g)
  {
    assert (front + [d])[..|front|] == front;
    if d.ConfigDoc? {
      assert ConfigDocs(g.configs) == ConfigDocs(f.configs) + [d];
    }
    if d.PluginDoc? {
      assert PluginDocs(g.plugins) == PluginDocs(f.plugins) + [d];
    }
  }

  /** What a stream that is accepted is read as: the last cluster, filled, and the last application, if there are any;
      all configs and all plugins in their order; and of each kubeadm part the last document of its kind. */
  lemma {:induction false} DecodeReads(docs: seq<Doc>, f: File, kind: KubeadmKind, derive: Derive)
    requires Decode(BLANK, docs, derive) == Some(f)
    ensures ReadsCluster(docs, f.cluster, derive) && ReadsApp(docs, f.app)
    ensures ReadsLists(docs, f) && ReadsPart(docs, f.kubeadm, kind)
    decreases |docs|
  {
    if docs == [] {
      assert ConfigDocs(f.configs) == [] && PluginDocs(f.plugins) == [];
    } else {
      var front, d := docs[..|docs| - 1], docs[|docs| - 1];
      assert docs == front + [d];
      var m := DecodeSnoc(front, d, f, derive);
      DecodeReads(front, m, kind, derive);
      DocEffect(m, d, f, kind, derive);
      ClusterSnoc(front, d, m.cluster, f.cluster, derive);
      AppSnoc(front, d, m.app, f.app);
      ListsStep(front, d, m, f, derive);
      PartSnoc(front, d, m.kubeadm, f.kubeadm, kind);
    }
  }

  // ---------------------------------------------------------------- round trip

  /** What every decoded Clusterfile satisfies. */
  ghost predicate Decoded(f: File, derive: Derive)
  {
    && (f.cluster.Some? ==> Fill(f.cluster.value, derive) == f.cluster)
    && ConfigsOk(f.configs)
    && (f.app.Some? ==> AppOk(f.app.value))
  }

  lemma DecodeDocKeeps(f: File, d: Doc, derive: Derive)
    requires Decoded(f, derive) && DecodeDoc(f, d, derive).Some?
    ensures Decoded(DecodeDoc(f, d, derive).value, derive)
  {
    if d.ClusterDoc? {
      FillIsFixedPoint(d.cluster, derive);
    }
  }

  lemma {:induction false} DecodeKeeps(f: File, docs: seq<Doc>, derive: Derive)
    requires Decoded(f, derive) && Decode(f, docs, derive).Some?
    ensures Decoded(Decode(f, docs, derive).value, derive)
    decreases |docs|
  {
    if docs != [] {
      DecodeDocKeeps(f, docs[0], derive);
      DecodeKeeps(DecodeDoc(f, docs[0], derive).value, docs[1..], derive);
    }
  }

  function Then(f: Option<File>, docs: seq<Doc>, derive: Derive): Option<File>
  {
    if f.None? then None else Decode(f.value, docs, derive)
  }

  lemma {:induction false} DecodeConcat(f: File, a: seq<Doc>, b: seq<Doc>, derive: Derive)
    ensures Decode(f, a + b, derive) == Then(Decode(f, a, derive), b, derive)
    decreases |a|
  {
    if a == [] {
      assert a + b == b;
    } else {
      assert (a + b)[0] == a[0] && (a + b)[1..] == a[1..] + b;
      if DecodeDoc(f, a[0], derive).Some? {
        DecodeConcat(DecodeDoc(f, a[0], derive).value, a[1..], b, derive);
      }
    }
  }

  lemma DecodeOneDoc(f: File, d: Doc, derive: Derive)
    ensures Decode(f, [d], derive) == DecodeDoc(f, d, derive)
  {
  }

  ghost predicate ConfigsOk(cs: seq<Config>)
  {
    forall i :: 0 <= i < |cs| ==> ConfigOk(cs[i])
  }

  lemma {:induction false} ReloadConfigs(f: File, cs: seq<Config>, derive: Derive)
    ensures Decode(f, ConfigDocs(cs), derive) == if ConfigsOk(cs) then Some(f.(configs := f.configs + cs)) else None
    decreases |cs|
  {
    if cs == [] {
      assert f.configs + cs == f.configs;
    } else {
      assert ConfigDocs(cs)[1..] == ConfigDocs(cs[1..]);
      assert cs == [cs[0]] + cs[1..];
      if ConfigOk(cs[0]) {
        assert ConfigsOk(cs) <==> ConfigsOk(cs[1..]);
        ReloadConfigs(f.(configs := f.configs + [cs[0]]), cs[1..], derive);
        assert f.configs + [cs[0]] + cs[1..] == f.configs + cs;
      }
    }
  }

  lemma {:induction false} ReloadPlugins(f: File, ps: seq<string>, derive: Derive)
    ensures Decode(f, PluginDocs(ps), derive) == Some(f.(plugins := f.plugins + ps))
    decreases |ps|
  {
    if ps == [] {
      assert f.plugins + ps == f.plugins;
    } else {
      assert PluginDocs(ps)[1..] == PluginDocs(ps[1..]);
      ReloadPlugins(f.(plugins := f.plugins + [ps[0]]), ps[1..], derive);
      assert f.plugins + [ps[0]] + ps[1..] == f.plugins + ps;
    }
  }

  lemma ReloadPart(f: File, kind: KubeadmKind, body: Option<string>, derive: Derive)
    ensures Decode(f, PartDocs(kind, body), derive)
         == Some(if body.Some? then f.(kubeadm := SetPart(f.kubeadm, kind, body.value)) else f)
  {
    if body.Some? {
      DecodeOneDoc(f, KubeadmDoc(kind, body.value), derive);
    }
  }

  lemma ReloadKubeadm(f: File, k: Kubeadm, derive: Derive)
    requires f.kubeadm == BLANK.kubeadm
    ensures Decode(f, KubeadmDocs(k), derive) == Some(f.(kubeadm := k))
  {
    var p1, p2 := PartDocs(InitConfiguration, k.initConfig), PartDocs(JoinConfiguration, k.joinConfig);
    var p3, p4 := PartDocs(ClusterConfiguration, k.clusterConfig), PartDocs(KubeletConfiguration, k.kubelet);
    var f1 := f.(kubeadm := f.kubeadm.(initConfig := k.initConfig));
    var f2 := f1.(kubeadm := f1.kubeadm.(joinConfig := k.joinConfig));
    var f3 := f2.(kubeadm := f2.kubeadm.(clusterConfig := k.clusterConfig));
    var f4 := f3.(kubeadm := f3.kubeadm.(kubelet := k.kubelet));
    ReloadPart(f, InitConfiguration, k.initConfig, derive);
    ReloadPart(f1, JoinConfiguration, k.joinConfig, derive);
    ReloadPart(f2, ClusterConfiguration, k.clusterConfig, derive);
    ReloadPart(f3, KubeletConfiguration, k.kubelet, derive);
    ReloadPart(f4, KubeProxyConfiguration, k.kubeProxy, derive);
    DecodeConcat(f, p1, p2, derive);
    DecodeConcat(f, p1 + p2, p3, derive);
    DecodeConcat(f, p1 + p2 + p3, p4, derive);
    DecodeConcat(f, p1 + p2 + p3 + p4, PartDocs(KubeProxyConfiguration, k.kubeProxy), derive);
  }

  /** An application with a launch section whose command list is present but empty. */
  predicate HasEmptyLaunch(a: Application)
  {
    exists i :: 0 <= i < |a.configs| && a.configs[i].launch == Some(Launch(Some([])))
  }

  lemma OmitExactly(a: Application)
    requires AppOk(a)
    ensures HasEmptyLaunch(a) ==> !AppOk(Omit(a))
    ensures !HasEmptyLaunch(a) ==> Omit(a) == a
  {
    if HasEmptyLaunch(a) {
      var i :| 0 <= i < |a.configs| && a.configs[i].launch == Some(Launch(Some([])));
      assert !AppConfigOk(Omit(a).configs[i]);
    } else {
      assert forall i :: 0 <= i < |a.configs| ==> OmitConfig(a.configs[i]) == a.configs[i];
      assert Omit(a).configs == a.configs;
    }
  }

  /** What a saved file is read back as: the cluster is defaulted again, and the application is the one written. */
  ghost function Reread(f: File, derive: Derive): Option<File>
  {
    var cluster := if f.cluster.None? then Some(None) else Filled(f.cluster.value, derive);
    if cluster.None? || !ConfigsOk(f.configs) || (f.app.Some? && !AppOk(Omit(f.app.value))) then None
    else Some(f.(cluster := cluster.value, app := if f.app.None? then None else Some(Omit(f.app.value))))
  }

  function Filled(c: Spec, derive: Derive): Option<Option<Spec>>
  {
    match Fill(c, derive)
    case None => None
    case Some(d) => Some(Some(d))
  }

  /** The file with its cluster and its application only. */
  function Head(f: File): File
  {
    f.(configs := [], plugins := [], kubeadm := BLANK.kubeadm)
  }

  /** The first documents of a saved file: the cluster and the application. */
  lemma ReloadHead(f: File, derive: Derive)
    ensures Decode(BLANK, ClusterDocs(f.cluster) + AppDocs(f.app), derive) ==
            Reread(Head(f), derive)
  {
    DecodeConcat(BLANK, ClusterDocs(f.cluster), AppDocs(f.app), derive);
    DecodeOneDoc(BLANK, ClusterDocs(f.cluster)[0], derive);
    if f.app.Some? {
      var cluster := if f.cluster.None? then Some(None) else Filled(f.cluster.value, derive);
      if cluster.Some? {
        DecodeOneDoc(BLANK.(cluster := cluster.value), AppDoc(Omit(f.app.value)), derive);
      }
    }
  }

  lemma ReloadTail(g: File, f: File, derive: Derive)
    requires g.configs == [] && g.plugins == [] && g.kubeadm == BLANK.kubeadm
    ensures Decode(g, ConfigDocs(f.configs) + PluginDocs(f.plugins) + KubeadmDocs(f.kubeadm), derive)
         == if ConfigsOk(f.configs) then Some(g.(configs := f.configs, plugins := f.plugins, kubeadm := f.kubeadm))
           else None
  {
    DecodeConcat(g, ConfigDocs(f.configs), PluginDocs(f.plugins), derive);
    DecodeConcat(g, ConfigDocs(f.configs) + PluginDocs(f.plugins), KubeadmDocs(f.kubeadm), derive);
    ReloadConfigs(g, f.configs, derive);
    assert [] + f.configs == f.configs && [] + f.plugins == f.plugins;
    ReloadPlugins(g.(configs := f.configs), f.plugins, derive);
    ReloadKubeadm(g.(configs := f.configs, plugins := f.plugins), f.kubeadm, derive);
  }

  lemma Regroup(a: seq<Doc>, b: seq<Doc>, c: seq<Doc>, d: seq<Doc>, e: seq<Doc>)
    ensures a + b + c + d + e == (a + b) + (c + d + e)
  {
  }

  lemma RereadParts(f: File, derive: Derive)
    ensures Reread(f, derive) ==
            match Reread(Head(f), derive)
            case None => None
            case Some(g) =>
              if ConfigsOk(f.configs) then Some(g.(configs := f.configs, plugins := f.plugins, kubeadm := f.kubeadm))
              else None
  {
  }

  lemma HeadIsBlank(f: File, derive: Derive)
    ensures Reread(Head(f), derive).Some? ==>
              var g := Reread(Head(f), derive).value;
              g.configs == [] && g.plugins == [] && g.kubeadm == BLANK.kubeadm
  {
  }

  /** For every Clusterfile object, whatever its setters put there: what its saved form is read back as. */
  lemma SavedReload(f: File, derive: Derive)
    ensures Decode(BLANK, Saved(f), derive) == Reread(f, derive)
  {
    var head, tail := ClusterDocs(f.cluster) + AppDocs(f.app),
      ConfigDocs(f.configs) + PluginDocs(f.plugins) + KubeadmDocs(f.kubeadm);
    Regroup(ClusterDocs(f.cluster), AppDocs(f.app), ConfigDocs(f.configs), PluginDocs(f.plugins),
      KubeadmDocs(f.kubeadm));
    DecodeConcat(BLANK, head, tail, derive);
    ReloadHead(f, derive);
    RereadParts(f, derive);
    HeadIsBlank(f, derive);
    if Reread(Head(f), derive).Some? {
      ReloadTail(Reread(Head(f), derive).value, f, derive);
    }
  }

  lemma DecodedReread(f: File, derive: Derive)
    requires Decoded(f, derive)
    ensures Reread(f, derive) == if f.app.Some? && HasEmptyLaunch(f.app.value) then None else Some(f)
  {
    if f.app.Some? {
      OmitExactly(f.app.value);
    }
  }

  /** Round trip: a decoded Clusterfile that is saved and decoded again gives back the same cluster,
      application, ordered configs, ordered plugins and kubeadm parts, exactly when no launch section of its
      application has an empty command list; otherwise the saved file is refused. */
  lemma SaveThenLoad(docs: seq<Doc>, derive: Derive)
    requires Decode(BLANK, docs, derive).Some?
    ensures var f := Decode(BLANK, docs, derive).value;
            Decode(BLANK, Saved(f), derive) == if f.app.Some? && HasEmptyLaunch(f.app.value) then None else Some(f)
  {
    DecodeKeeps(BLANK, docs, derive);
    SavedReload(Decode(BLANK, docs, derive).value, derive);
    DecodedReread(Decode(BLANK, docs, derive).value, derive);
  }

  /** After `SetCluster` on a decoded file without an empty launch section, saving and loading gives the new cluster
      defaulted, and everything else as it was; it is refused exactly when the defaulting fails. */
  lemma SetClusterThenLoad(docs: seq<Doc>, c: Spec, derive: Derive)
    requires Decode(BLANK, docs, derive).Some?
    requires var a := Decode(BLANK, docs, derive).value.app; a.Some? ==> !HasEmptyLaunch(a.value)
    ensures var f := Decode(BLANK, docs, derive).value;
            Decode(BLANK, Saved(f.(cluster := Some(c))), derive) == if Fill(c, derive).None? then None
              else Some(f.(cluster := Fill(c, derive)))
  {
    var f := Decode(BLANK, docs, derive).value;
    DecodeKeeps(BLANK, docs, derive);
    SavedReload(f.(cluster := Some(c)), derive);
    DecodedReread(f, derive);
    if f.app.Some? {
      OmitExactly(f.app.value);
    }
  }

  /** After `SetApplication` on a decoded file, with an application the loader accepts: saving and loading gives it
      back, exactly when it has no empty command list. */
  lemma SetApplicationThenLoad(docs: seq<Doc>, a: Application, derive: Derive)
    requires Decode(BLANK, docs, derive).Some? && AppOk(a)
    ensures var f := Decode(BLANK, docs, derive).value;
            Decode(BLANK, Saved(f.(app := Some(a))), derive) == if HasEmptyLaunch(a) then None
              else Some(f.(app := Some(a)))
  {
    var f := Decode(BLANK, docs, derive).value;
    DecodeKeeps(BLANK, docs, derive);
    SavedReload(f.(app := Some(a)), derive);
    DecodedReread(f.(app := Some(a)), derive);
  }

  /** A Clusterfile that loads, and whose saved form does not. */
  lemma EmptyLaunchIsLost(derive: Derive)
    ensures var a := Application([AppConfig("web", Some(Launch(Some([]))), [], "")], "");
            Decode(BLANK, [AppDoc(a)], derive) == Some(BLANK.(app := Some(a)))
            && Decode(BLANK, Saved(BLANK.(app := Some(a))), derive) == None
  {
    var a := Application([AppConfig("web", Some(Launch(Some([]))), [], "")], "");
    assert a.configs[0].launch == Some(Launch(Some([])));
    DecodeOneDoc(BLANK, AppDoc(a), derive);
    SaveThenLoad([AppDoc(a)], derive);
  }
}
