/** From a resolved fleet to the runtime's configs, and what the runtime's validator makes of them. */
module Generate {
  import opened Text
  import opened Config
  import opened Fleet
  import opened Resolve

  datatype Generated = Generated(instance: Effective, path: string, config: Settings)

  function ControlBind(x: Effective): string {
    BindKey(LOOPBACK, x.controlPort)
  }

  function Notes(x: Effective): map<string, string> {
    map["group" := x.group, "profile" := x.profile, "host_id" := x.hostID, "host_endpoint_url" := x.hostURL,
        "storage_backend" := x.storageBackend, "sqlite_path" := x.sqlitePath, "control_bind" := ControlBind(x)]
  }

  /** An engine is configured exactly for an instance with a host to talk to. */
  function EngineOf(hostURL: string): SessionEngine {
    if hostURL != "" then SessionEngine(true, true, 3000, 5000, 5000) else SessionEngine(false, false, 0, 0, 0)
  }

  function ConfigOf(x: Effective): Settings {
    Settings(x.instanceID, x.hostID, x.egmID, x.egmEndpoint, x.hostURL, x.g2sXML, EngineOf(x.hostURL),
             Listen(x.listenHost, x.wirePort), Security(x.trustMode, x.certs.certFile, x.certs.keyFile, x.certs.caFile),
             x.logDir, Storage(x.storageBackend, x.sqlitePath), ControlBind(x), Outbound("", 0, 0, 0, 0), x.packFile, Notes(x))
  }

  function GeneratedOf(x: Effective, dir: string, join: (string, string) -> string): Generated {
    Generated(x, join(dir, x.instanceID + ".json"), ConfigOf(x))
  }

  method GenerateEach(effective: seq<Effective>, dir: string, join: (string, string) -> string)
    returns (out: seq<Generated>)
    ensures |out| == |effective|
    ensures forall i :: 0 <= i < |effective| ==> out[i] == GeneratedOf(effective[i], dir, join)
  {
    out := [];
    for i := 0 to |effective|
      invariant |out| == i
      invariant forall k :: 0 <= k < i ==> out[k] == GeneratedOf(effective[k], dir, join)
    {
      out := out + [GeneratedOf(effective[i], dir, join)];
    }
  }

  // ----- where each setting of a generated config comes from -----

  /** The value is the first of the candidates that is not zero. */
  predicate FirstNonZero(value: int, inst: int, profile: int, defaults: int, fallback: int) {
    && (inst != 0 ==> value == inst)
    && (inst == 0 && profile != 0 ==> value == profile)
    && (inst == 0 && profile == 0 && defaults != 0 ==> value == defaults)
    && (inst == 0 && profile == 0 && defaults == 0 ==> value == fallback)
  }

  predicate IdentityFrom(c: Settings, inst: Instance, p: Profile, d: Defaults) {
    && c.instanceID == inst.instanceID && c.egmID == inst.egmID
    && FirstOf(c.hostID, inst.hostID, p.hostID, d.hostID, "HOST-001")
    && FirstOf(c.hostURL, inst.hostURL, p.hostURL, d.hostURL, "")
    && FirstOf(c.packFile, "", p.packFile, d.packFile, "")
  }

  /** The listener's host and port come from the instance, then from the endpoints' layers, then from the defaults. */
  predicate ListenerFrom(c: Settings, inst: Instance, i: nat, p: Profile, d: Defaults) {
    && (if inst.bindHost != "" then c.listen.host == inst.bindHost
        else FirstOf(c.listen.host, inst.egmEndpoint.bindIP, p.egmEndpoint.bindIP, d.egmEndpoint.bindIP,
                     if d.listenHost != "" then d.listenHost else "127.0.0.1"))
    && (if inst.wirePort != 0 then c.listen.port == inst.wirePort
        else FirstNonZero(c.listen.port, inst.egmEndpoint.port, p.egmEndpoint.port, d.egmEndpoint.port, d.wirePortBase + i))
    && c.controlBind == "127.0.0.1:" + Itoa(if inst.controlPort != 0 then inst.controlPort else d.controlPortBase + i)
  }

  /** The endpoint's own layers come first, and the listener fills in what they leave open. */
  predicate EndpointFrom(c: Settings, inst: Instance, p: Profile, d: Defaults) {
    var e, given, profile, defaults := c.endpoint, inst.egmEndpoint, p.egmEndpoint, d.egmEndpoint;
    && FirstOf(e.scheme, given.scheme, profile.scheme, defaults.scheme,
               if d.trustMode == "" || d.trustMode == "plaintext_lab" then "http" else "https")
    && FirstOf(e.bindIP, given.bindIP, profile.bindIP, defaults.bindIP, c.listen.host)
    && FirstOf(e.host, given.host, profile.host, defaults.host,
               if inst.advertisedHost != "" then inst.advertisedHost
               else if inst.advertisedIP != "" then inst.advertisedIP else e.bindIP)
    && FirstNonZero(e.port, given.port, profile.port, defaults.port, c.listen.port)
    && FirstOf(e.path, given.path, profile.path, defaults.path, "/g2s")
  }

  predicate XMLFrom(c: Settings, inst: Instance, p: Profile, d: Defaults) {
    && FirstOf(c.g2sXML.mode, inst.g2sXML.mode, p.g2sXML.mode, d.g2sXML.mode, "lab_legacy_xml")
    && FirstOf(c.g2sXML.namespace, inst.g2sXML.namespace, p.g2sXML.namespace, d.g2sXML.namespace,
               "http://www.gamingstandards.com/g2s/schemas/v1.0.3")
    && FirstOf(c.g2sXML.egmLocation, inst.g2sXML.egmLocation, p.g2sXML.egmLocation, d.g2sXML.egmLocation,
               if c.endpoint.port > 0 then c.endpoint.host + ":" + Itoa(c.endpoint.port) else "")
  }

  predicate SecurityFrom(c: Settings, inst: Instance, p: Profile, d: Defaults) {
    && c.security.trustMode == (if d.trustMode != "" then d.trustMode else "plaintext_lab")
    && FirstOf(c.security.certFile, inst.certs.certFile, p.certs.certFile, d.certs.certFile, "")
    && FirstOf(c.security.keyFile, inst.certs.keyFile, p.certs.keyFile, d.certs.keyFile, "")
    && FirstOf(c.security.caFile, inst.certs.caFile, p.certs.caFile, d.certs.caFile, "")
  }

  predicate FilesFrom(c: Settings, inst: Instance, d: Defaults, join: (string, string) -> string) {
    && FirstOf(c.loggingDir, inst.logDir, "", "", join(if d.logRoot != "" then d.logRoot else "./logs", inst.instanceID))
    && c.storage.backend == (if d.storageBackend != "" then d.storageBackend else "noop")
    && FirstOf(c.storage.sqlitePath, inst.sqlitePath, "", "",
               if d.storageBackend != "sqlite" then ""
               else join(if d.sqliteRoot != "" then d.sqliteRoot else c.loggingDir, inst.instanceID + "-index.db"))
  }

  /** The engine runs, with its fixed timers, exactly when there is a host to talk to; the outbound sender is left unset. */
  predicate EngineFrom(c: Settings) {
    && c.sessionEngine.enabled == c.sessionEngine.autoStart == (c.hostURL != "")
    && c.sessionEngine.commsOnlineTimeoutMS == (if c.hostURL != "" then 3000 else 0)
    && c.sessionEngine.keepAliveIntervalMS == (if c.hostURL != "" then 5000 else 0)
    && c.sessionEngine.reconnectIntervalMS == (if c.hostURL != "" then 5000 else 0)
    && c.outbound == Outbound("", 0, 0, 0, 0)
  }

  predicate NotesFrom(c: Settings, inst: Instance, profile: string) {
    c.notes == map["group" := inst.group, "profile" := profile, "host_id" := c.hostID, "host_endpoint_url" := c.hostURL,
                   "storage_backend" := c.storage.backend, "sqlite_path" := c.storage.sqlitePath, "control_bind" := c.controlBind]
  }

  /** The instance shown beside a config has the config's settings. */
  predicate ShownWith(x: Effective, c: Settings) {
    && x.instanceID == c.instanceID && x.egmID == c.egmID && x.hostID == c.hostID && x.hostURL == c.hostURL
    && x.listenHost == c.listen.host && x.wirePort == c.listen.port && x.egmEndpoint == c.endpoint && x.g2sXML == c.g2sXML
    && x.trustMode == c.security.trustMode && x.certs.certFile == c.security.certFile
    && x.certs.keyFile == c.security.keyFile && x.certs.caFile == c.security.caFile
    && x.packFile == c.packFile && x.logDir == c.loggingDir
    && x.storageBackend == c.storage.backend && x.sqlitePath == c.storage.sqlitePath
  }

  /** Every field of a config, from the instance at index i, the profile of its group and the defaults; and its file. */
  predicate FromManifest(g: Generated, m: Manifest, i: nat, outDir: string, join: (string, string) -> string)
    requires i < |m.instances|
  {
    var inst := m.instances[i];
    && inst.group in m.groups && m.groups[inst.group].profile in m.profiles
    && var p := m.profiles[m.groups[inst.group].profile];
    && IdentityFrom(g.config, inst, p, m.defaults) && ListenerFrom(g.config, inst, i, p, m.defaults)
    && EndpointFrom(g.config, inst, p, m.defaults) && XMLFrom(g.config, inst, p, m.defaults)
    && SecurityFrom(g.config, inst, p, m.defaults) && FilesFrom(g.config, inst, m.defaults, join)
    && EngineFrom(g.config) && NotesFrom(g.config, inst, m.groups[inst.group].profile)
    && ShownWith(g.instance, g.config)
    && g.path == join(if outDir != "" then outDir else "./generated", inst.instanceID + ".json")
  }

  lemma LayeredSources(d: Defaults, p: Profile, name: string, inst: Instance, i: nat, join: (string, string) -> string)
    ensures var c := ConfigOf(Layered(d, p, name, inst, i, join));
            && IdentityFrom(c, inst, p, d) && EngineFrom(c) && NotesFrom(c, inst, name)
            && SecurityFrom(c, inst, p, d) && FilesFrom(c, inst, d, join)
  {
  }

  lemma LayeredAddresses(d: Defaults, p: Profile, name: string, inst: Instance, i: nat, join: (string, string) -> string)
    ensures var c := ConfigOf(Layered(d, p, name, inst, i, join));
            ListenerFrom(c, inst, i, p, d) && EndpointFrom(c, inst, p, d) && XMLFrom(c, inst, p, d)
  {
  }

  lemma ShownAsConfigured(x: Effective)
    ensures ShownWith(x, ConfigOf(x))
  {
  }

  /** Where every setting of a config lands and where it comes from. */
  lemma ConfigFromManifest(m: Manifest, i: nat, outDir: string, urlOK: string -> bool, join: (string, string) -> string)
    requires Resolves(m, urlOK, join) && i < |m.instances|
    ensures FromManifest(GeneratedOf(Layer(m, i, join), OrElse(outDir, "./generated"), join), m, i, outDir, join)
  {
    ValidInstanceResolves(m, i, urlOK);
    var inst := m.instances[i];
    var p, name := ProfileOf(m, inst), GroupOf(m, inst).profile;
    LayeredSources(m.defaults, p, name, inst, i, join);
    LayeredAddresses(m.defaults, p, name, inst, i, join);
    ShownAsConfigured(Layer(m, i, join));
    assert Layer(m, i, join).instanceID == inst.instanceID;
    hide IdentityFrom, ListenerFrom, EndpointFrom, XMLFrom, SecurityFrom, FilesFrom, EngineFrom, NotesFrom, ShownWith;
    hide ConfigOf, Layered, ValidManifest, Resolves;
  }

  method GenerateConfigs(m: Manifest, outDir: string, urlOK: string -> bool, join: (string, string) -> string)
    returns (r: Result<seq<Generated>, Failure>)
    ensures r.Ok? <==> Resolves(m, urlOK, join)
    ensures r.Ok? ==> |r.value| == |m.instances|
    ensures r.Ok? ==> forall i :: 0 <= i < |m.instances| ==>
      r.value[i] == GeneratedOf(Layer(m, i, join), OrElse(outDir, "./generated"), join)
    ensures r.Ok? ==> forall i :: 0 <= i < |m.instances| ==> FromManifest(r.value[i], m, i, outDir, join)
  {
    hide FromManifest, Resolves, Layer;
    var effective := ResolveInstances(m, urlOK, join);
    if effective.Err? { return Err(effective.error); }
    var out := GenerateEach(effective.value, if outDir == "" then "./generated" else outDir, join);
    r := Ok(out);
    forall i | 0 <= i < |m.instances| ensures FromManifest(out[i], m, i, outDir, join) {
      ConfigFromManifest(m, i, outDir, urlOK, join);
    }
  }

  /** Nothing of an instance is lost on the way: different instances get different configs. */
  lemma ConfigInjective(a: Effective, b: Effective)
    requires ConfigOf(a) == ConfigOf(b)
    ensures a == b
  {
    BindKeyInjective(LOOPBACK, a.controlPort, LOOPBACK, b.controlPort);
    NotesTell(a);
    NotesTell(b);
  }

  lemma NotesTell(x: Effective)
    ensures "group" in Notes(x) && Notes(x)["group"] == x.group
    ensures "profile" in Notes(x) && Notes(x)["profile"] == x.profile
    ensures "host_id" in Notes(x) && Notes(x)["host_id"] == x.hostID
  {
  }

  // ----- control addresses -----

  /** Whatever the listen hosts, control addresses are equal exactly when control ports are. */
  lemma ControlBindsByPort(a: Effective, b: Effective)
    ensures ControlBind(a) == ControlBind(b) <==> a.controlPort == b.controlPort
  {
    BindKeyInjective(LOOPBACK, a.controlPort, LOOPBACK, b.controlPort);
  }

  /** One instance's explicit control port is the port the other is allocated. */
  predicate TakesAllocated(m: Manifest, i: nat, j: nat)
    requires i < |m.instances| && j < |m.instances|
  {
    m.instances[i].controlPort != 0 && m.instances[j].controlPort == 0
    && m.instances[i].controlPort == m.defaults.controlPortBase + j
  }

  /** Two instances of a resolved fleet get the same control address exactly when one's explicit port is
      the other's allocated one; and that only happens between instances on different listen hosts. */
  lemma ControlBindCollision(m: Manifest, i: nat, j: nat, urlOK: string -> bool, join: (string, string) -> string)
    requires Resolves(m, urlOK, join) && i < j < |m.instances|
    ensures ControlBind(Layer(m, i, join)) == ControlBind(Layer(m, j, join)) <==>
      TakesAllocated(m, i, j) || TakesAllocated(m, j, i)
    ensures ControlBind(Layer(m, i, join)) == ControlBind(Layer(m, j, join)) ==>
      Layer(m, i, join).listenHost != Layer(m, j, join).listenHost
  {
    SamePortOtherHost(m, i, j, urlOK, join);
    ValidPorts(m, i, j, urlOK);
    hide ControlBind, ValidManifest, KeysDistinct;
    ControlBindsByPort(Layer(m, i, join), Layer(m, j, join));
    LayerControlPort(m, i, join);
    LayerControlPort(m, j, join);
    hide Layer;
  }

  lemma LayerControlPort(m: Manifest, i: nat, join: (string, string) -> string)
    requires i < |m.instances|
    ensures Layer(m, i, join).controlPort == Or(m.instances[i].controlPort, m.defaults.controlPortBase + i)
  {
  }

  lemma SamePortOtherHost(m: Manifest, i: nat, j: nat, urlOK: string -> bool, join: (string, string) -> string)
    requires Resolves(m, urlOK, join) && i < j < |m.instances|
    ensures Layer(m, i, join).controlPort == Layer(m, j, join).controlPort ==>
      Layer(m, i, join).listenHost != Layer(m, j, join).listenHost
  {
    ResolvesExactly(m, urlOK, join);
    assert InstancesApart(m, i, j, join);
  }

  lemma ValidPorts(m: Manifest, i: nat, j: nat, urlOK: string -> bool)
    requires ValidManifest(m, urlOK) && i < j < |m.instances|
    ensures m.instances[i].controlPort >= 0 && m.instances[j].controlPort >= 0
    ensures m.instances[i].controlPort > 0 ==> m.instances[i].controlPort != m.instances[j].controlPort
  {
    assert Apart(m.instances[i], m.instances[j]);
    assert InstanceOK(m, m.instances[i], urlOK) && InstanceOK(m, m.instances[j], urlOK);
  }

  // ----- the pipeline -----

  ghost predicate JoinKeeps(join: (string, string) -> string) {
    forall a, b :: a != "" && b != "" ==> join(a, b) != ""
  }

  /** The four things a manifest settles that its own validation does not check. */
  predicate Runnable(x: Effective) {
    && 1 <= x.egmEndpoint.port <= 65535
    && (x.g2sXML.mode == "lab_legacy_xml" || x.g2sXML.mode == "xsd_g2s_message")
    && (x.storageBackend == "noop" || x.storageBackend == "sqlite")
    && SecurityOK(Security(x.trustMode, x.certs.certFile, x.certs.keyFile, x.certs.caFile))
  }

  /** What resolution gives every instance of a valid manifest. */
  predicate WellFormed(x: Effective, urlOK: string -> bool) {
    && x.instanceID != "" && x.egmID != "" && Resolved(x.egmEndpoint)
    && (x.egmEndpoint.port == 0 ==> x.wirePort == 0)
    && (x.hostURL == "" || urlOK(x.hostURL)) && x.g2sXML.mode != ""
    && x.logDir != "" && x.packFile != "" && x.storageBackend != ""
    && (x.storageBackend == "sqlite" ==> x.sqlitePath != "")
  }

  lemma LayerWellFormed(m: Manifest, i: nat, urlOK: string -> bool, join: (string, string) -> string)
    requires ValidManifest(m, urlOK) && i < |m.instances| && JoinKeeps(join)
    ensures WellFormed(Layer(m, i, join), urlOK)
  {
    var inst := m.instances[i];
    BlankEmpty();
    ValidInstanceResolves(m, i, urlOK);
    LayerResolved(m, i, urlOK, join);
    assert InstanceOK(m, inst, urlOK);
    PathsNonEmpty(m.defaults, inst, join);
  }

  lemma PathsNonEmpty(d: Defaults, inst: Instance, join: (string, string) -> string)
    requires JoinKeeps(join) && inst.instanceID != ""
    ensures LogDirOf(d, inst, join) != ""
    ensures d.storageBackend == "sqlite" ==> SQLitePathOf(d, inst, LogDirOf(d, inst, join), join) != ""
  {
    assert inst.instanceID + "-index.db" != "";
  }

  lemma ConfigAcceptable(x: Effective, urlOK: string -> bool)
    requires WellFormed(x, urlOK)
    ensures Acceptable(ConfigOf(x), urlOK) <==> Runnable(x)
  {
  }

  /** The pipeline, over both packages: once a manifest resolves, the runtime accepts an instance's generated
      config exactly when its endpoint port is in range and its XML mode, storage backend and trust mode
      (with its certificate files) are supported. */
  lemma Pipeline(m: Manifest, i: nat, urlOK: string -> bool, join: (string, string) -> string)
    requires Resolves(m, urlOK, join) && i < |m.instances| && JoinKeeps(join)
    ensures Validate(ConfigOf(Layer(m, i, join)), urlOK).1.None? <==> Runnable(Layer(m, i, join))
  {
    LayerWellFormed(m, i, urlOK, join);
    ConfigAcceptable(Layer(m, i, join), urlOK);
    ValidateAccepts(ConfigOf(Layer(m, i, join)), urlOK);
  }

  /** What resolution has already defaulted, besides. */
  predicate Settled(x: Effective) {
    && x.hostID != "" && x.egmEndpoint.bindIP != "" && x.egmEndpoint.host != "" && x.listenHost != ""
    && x.g2sXML.namespace != "" && (x.egmEndpoint.port > 0 ==> x.g2sXML.egmLocation != "")
    && (x.wirePort == 0 ==> x.egmEndpoint.port == 0)
  }

  lemma DefaultsAlreadyApplied(x: Effective, urlOK: string -> bool)
    requires WellFormed(x, urlOK) && Settled(x) && Runnable(x)
    ensures var c := ConfigOf(x);
            Validate(c, urlOK).0 ==
              c.(outbound := c.outbound.(defaultTargetURL := c.hostURL), sessionEngine := DefaultEngine(c.sessionEngine))
  {
    ConfigAcceptable(x, urlOK);
    ValidateAccepts(ConfigOf(x), urlOK);
    AcceptedParts(ConfigOf(x), urlOK);
    assert ControlBind(x) != "";
  }

  lemma LayerSettled(m: Manifest, i: nat, join: (string, string) -> string)
    requires i < |m.instances|
    ensures Settled(Layer(m, i, join))
  {
    var inst := m.instances[i];
    EndpointSettled(m.defaults, ProfileOf(m, inst), inst, i);
  }

  lemma EndpointSettled(d: Defaults, p: Profile, inst: Instance, i: nat)
    ensures var e := ResolvedEndpoint(d, p, inst, i);
            && e.bindIP != "" && e.host != "" && ListenHost(d, p, inst) != ""
            && (WirePortOf(d, p, inst, i) == 0 ==> e.port == 0)
            && (e.port > 0 ==> ResolvedG2SXML(inst.g2sXML, e).egmLocation != "")
  {
  }

  /** The two packages default alike: on the config of a runnable instance the validator has nothing left to
      fill in but the outbound target and, without a host, the engine's unused timers. */
  lemma PipelineSettles(m: Manifest, i: nat, urlOK: string -> bool, join: (string, string) -> string)
    requires Resolves(m, urlOK, join) && i < |m.instances| && JoinKeeps(join) && Runnable(Layer(m, i, join))
    ensures var c := ConfigOf(Layer(m, i, join));
            Validate(c, urlOK).0 ==
              c.(outbound := c.outbound.(defaultTargetURL := c.hostURL), sessionEngine := DefaultEngine(c.sessionEngine))
  {
    LayerWellFormed(m, i, urlOK, join);
    LayerSettled(m, i, join);
    DefaultsAlreadyApplied(Layer(m, i, join), urlOK);
  }
}
