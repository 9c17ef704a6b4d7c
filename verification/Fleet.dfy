/** The fleet manifest, and what validation accepts. */
module Fleet {
  import opened Text
  import opened Config

  // ----- the manifest -----

  datatype Defaults = Defaults(
    hostID: string, listenHost: string, wirePortBase: int, controlPortBase: int, egmEndpoint: Endpoint, hostURL: string,
    g2sXML: G2SXML, trustMode: string, packFile: string, logRoot: string, storageBackend: string, sqliteRoot: string,
    certs: Certs)

  datatype Profile = Profile(
    packFile: string, logicalCommands: map<string, string>, hostID: string, egmEndpoint: Endpoint, hostURL: string,
    g2sXML: G2SXML, certs: Certs)

  datatype Group = Group(profile: string)

  datatype Instance = Instance(
    instanceID: string, egmID: string, hostID: string, group: string, wirePort: int, controlPort: int, bindHost: string,
    egmEndpoint: Endpoint, hostURL: string, g2sXML: G2SXML, advertisedHost: string, advertisedIP: string, logDir: string,
    sqlitePath: string, certs: Certs)

  /** The three certificate fields every layer carries. */
  datatype Certs = Certs(certFile: string, keyFile: string, caFile: string)

  datatype Manifest = Manifest(
    schemaVersion: string, fleetName: string, defaults: Defaults, profiles: map<string, Profile>,
    groups: map<string, Group>, instances: seq<Instance>)

  const SCHEMA_VERSION := "vegm.fleet-manifest/v1"
  const NO_ENDPOINT := Endpoint("", "", "", 0, "")
  const NO_PROFILE := Profile("", map[], "", NO_ENDPOINT, "", G2SXML("", "", ""), Certs("", "", ""))

  /** Where a complaint about a manifest points, and what it is about. */
  datatype Place = Whole | InDefaults | InProfile(name: string) | InGroup(name: string) | InInstance(index: nat)

  datatype Topic =
    | SchemaVersion | FleetName | NoProfiles | NoGroups | NoInstances | EmptyProfileKey | EmptyGroupKey | PackFile | LogicalCommands
    | ProfileRequired | ProfileMissing | InstanceID | EGMID | HostID | GroupRequired | GroupMissing
    | WirePort | ControlPort | EndpointScheme | EndpointPort | EndpointPath | HostURL | Duplicate(field: Topic)

  datatype Complaint = Complaint(place: Place, topic: Topic)

  // ----- what a valid manifest is -----

  predicate Blank(s: string) {
    TrimSpace(s) == ""
  }

  predicate EndpointOK(e: Endpoint) {
    SchemeOK(e.scheme) && 0 <= e.port <= 65535 && PathOK(e.path)
  }

  predicate URLOK(u: string, urlOK: string -> bool) {
    u == "" || urlOK(u)
  }

  predicate ProfileOK(name: string, p: Profile, urlOK: string -> bool) {
    !Blank(name) && !Blank(p.packFile) && p.logicalCommands != map[] && EndpointOK(p.egmEndpoint) && URLOK(p.hostURL, urlOK)
  }

  predicate GroupOK(m: Manifest, name: string, g: Group) {
    !Blank(name) && !Blank(g.profile) && g.profile in m.profiles
  }

  /** resolvedHostID: an absent group or profile contributes nothing. */
  function ResolvedHostID(m: Manifest, inst: Instance): string {
    if inst.hostID != "" then inst.hostID
    else if inst.group in m.groups && m.groups[inst.group].profile in m.profiles
            && m.profiles[m.groups[inst.group].profile].hostID != ""
    then m.profiles[m.groups[inst.group].profile].hostID
    else m.defaults.hostID
  }

  predicate IdentityOK(m: Manifest, inst: Instance) {
    && !Blank(inst.instanceID) && !Blank(inst.egmID) && ResolvedHostID(m, inst) != ""
    && !Blank(inst.group) && inst.group in m.groups
  }

  predicate InstanceOK(m: Manifest, inst: Instance, urlOK: string -> bool) {
    && IdentityOK(m, inst)
    && inst.wirePort >= 0 && inst.controlPort >= 0 && EndpointOK(inst.egmEndpoint) && URLOK(inst.hostURL, urlOK)
  }

  /** No identity and no explicit port of one instance is used by the other. */
  predicate Apart(a: Instance, b: Instance) {
    && a.instanceID != b.instanceID && a.egmID != b.egmID
    && (a.wirePort > 0 ==> a.wirePort != b.wirePort) && (a.controlPort > 0 ==> a.controlPort != b.controlPort)
  }

  predicate HeaderOK(m: Manifest, urlOK: string -> bool) {
    && m.schemaVersion == SCHEMA_VERSION && !Blank(m.fleetName)
    && m.profiles != map[] && m.groups != map[] && m.instances != []
    && EndpointOK(m.defaults.egmEndpoint) && URLOK(m.defaults.hostURL, urlOK)
  }

  /** The first n instances are each fine, and pairwise apart. */
  predicate InstancesOK(m: Manifest, n: nat, urlOK: string -> bool)
    requires n <= |m.instances|
  {
    && (forall i :: 0 <= i < n ==> InstanceOK(m, m.instances[i], urlOK))
    && (forall i, j :: 0 <= i < j < n ==> Apart(m.instances[i], m.instances[j]))
  }

  predicate ValidManifest(m: Manifest, urlOK: string -> bool) {
    && HeaderOK(m, urlOK)
    && (forall name <- m.profiles :: ProfileOK(name, m.profiles[name], urlOK))
    && (forall name <- m.groups :: GroupOK(m, name, m.groups[name]))
    && InstancesOK(m, |m.instances|, urlOK)
  }

  // ----- the complaints about a manifest -----

  function When(bad: bool, topic: Topic): set<Topic> {
    if bad then {topic} else {}
  }

  function EndpointTopics(e: Endpoint): set<Topic> {
    When(!SchemeOK(e.scheme), EndpointScheme) + When(e.port < 0 || e.port > 65535, EndpointPort)
    + When(!PathOK(e.path), EndpointPath)
  }

  function URLTopics(u: string, urlOK: string -> bool): set<Topic> {
    When(!URLOK(u, urlOK), HostURL)
  }

  function HeaderTopics(m: Manifest): set<Topic> {
    When(m.schemaVersion != SCHEMA_VERSION, SchemaVersion) + When(Blank(m.fleetName), FleetName)
    + When(m.profiles == map[], NoProfiles) + When(m.groups == map[], NoGroups) + When(m.instances == [], NoInstances)
  }

  function ProfileTopics(p: Profile, urlOK: string -> bool): set<Topic> {
    When(Blank(p.packFile), PackFile) + When(p.logicalCommands == map[], LogicalCommands)
    + (EndpointTopics(p.egmEndpoint) + URLTopics(p.hostURL, urlOK))
  }

  function GroupTopics(m: Manifest, g: Group): set<Topic> {
    if Blank(g.profile) then {ProfileRequired} else When(g.profile !in m.profiles, ProfileMissing)
  }

  function IdentityTopics(m: Manifest, inst: Instance): set<Topic> {
    When(Blank(inst.instanceID), InstanceID) + When(Blank(inst.egmID), EGMID) + When(ResolvedHostID(m, inst) == "", HostID)
    + (if Blank(inst.group) then {GroupRequired} else When(inst.group !in m.groups, GroupMissing))
  }

  function OwnTopics(m: Manifest, inst: Instance, urlOK: string -> bool): set<Topic> {
    IdentityTopics(m, inst) + When(inst.wirePort < 0, WirePort) + When(inst.controlPort < 0, ControlPort)
    + (EndpointTopics(inst.egmEndpoint) + URLTopics(inst.hostURL, urlOK))
  }

  /** What an instance repeats of the ones before it. */
  function RepeatedTopics(insts: seq<Instance>, n: nat): set<Topic>
    requires n < |insts|
  {
    When(!Blank(insts[n].instanceID) && exists i :: 0 <= i < n && insts[i].instanceID == insts[n].instanceID,
         Duplicate(InstanceID))
    + When(!Blank(insts[n].egmID) && exists i :: 0 <= i < n && insts[i].egmID == insts[n].egmID, Duplicate(EGMID))
    + When(insts[n].wirePort > 0 && exists i :: 0 <= i < n && insts[i].wirePort == insts[n].wirePort, Duplicate(WirePort))
    + When(insts[n].controlPort > 0 && exists i :: 0 <= i < n && insts[i].controlPort == insts[n].controlPort,
           Duplicate(ControlPort))
  }

  ghost predicate HeaderBlamed(m: Manifest, c: Complaint, urlOK: string -> bool) {
    || (c.place == Whole && c.topic in HeaderTopics(m))
    || (c.place == InDefaults && c.topic in EndpointTopics(m.defaults.egmEndpoint) + URLTopics(m.defaults.hostURL, urlOK))
  }

  ghost predicate ProfilesBlamed(m: Manifest, names: set<string>, c: Complaint, urlOK: string -> bool)
    requires names <= m.profiles.Keys
  {
    || (c == Complaint(Whole, EmptyProfileKey) && exists name <- names :: Blank(name))
    || (c.place.InProfile? && c.place.name in names && !Blank(c.place.name)
        && c.topic in ProfileTopics(m.profiles[c.place.name], urlOK))
  }

  ghost predicate GroupsBlamed(m: Manifest, names: set<string>, c: Complaint)
    requires names <= m.groups.Keys
  {
    || (c == Complaint(Whole, EmptyGroupKey) && exists name <- names :: Blank(name))
    || (c.place.InGroup? && c.place.name in names && !Blank(c.place.name)
        && c.topic in GroupTopics(m, m.groups[c.place.name]))
  }

  ghost predicate InstancesBlamed(m: Manifest, n: nat, c: Complaint, urlOK: string -> bool)
    requires n <= |m.instances|
  {
    c.place.InInstance? && c.place.index < n
    && c.topic in OwnTopics(m, m.instances[c.place.index], urlOK) + RepeatedTopics(m.instances, c.place.index)
  }

  /** Exactly what validation complains of. */
  ghost predicate Blamed(m: Manifest, c: Complaint, urlOK: string -> bool) {
    || HeaderBlamed(m, c, urlOK) || ProfilesBlamed(m, m.profiles.Keys, c, urlOK) || GroupsBlamed(m, m.groups.Keys, c)
    || InstancesBlamed(m, |m.instances|, c, urlOK)
  }

  // ----- a manifest is valid exactly when nothing is blamed -----

  lemma HeaderUnblamed(m: Manifest, urlOK: string -> bool)
    ensures HeaderOK(m, urlOK) <==> forall c :: !HeaderBlamed(m, c, urlOK)
  {
    hide Blank;
    if !HeaderOK(m, urlOK) {
      var header, defaults := HeaderTopics(m), EndpointTopics(m.defaults.egmEndpoint) + URLTopics(m.defaults.hostURL, urlOK);
      assert header != {} || defaults != {};
      var t :| t in header || t in defaults;
      assert HeaderBlamed(m, Complaint(if t in header then Whole else InDefaults, t), urlOK);
    }
  }

  lemma ProfilesUnblamed(m: Manifest, urlOK: string -> bool)
    ensures (forall name <- m.profiles :: ProfileOK(name, m.profiles[name], urlOK))
       <==> forall c :: !ProfilesBlamed(m, m.profiles.Keys, c, urlOK)
  {
    hide Blank;
    forall name | name in m.profiles && !ProfileOK(name, m.profiles[name], urlOK)
      ensures exists c :: ProfilesBlamed(m, m.profiles.Keys, c, urlOK)
    {
      if Blank(name) {
        assert ProfilesBlamed(m, m.profiles.Keys, Complaint(Whole, EmptyProfileKey), urlOK);
      } else {
        var topics := ProfileTopics(m.profiles[name], urlOK);
        assert topics != {};
        var t :| t in topics;
        assert ProfilesBlamed(m, m.profiles.Keys, Complaint(InProfile(name), t), urlOK);
      }
    }
    forall c | ProfilesBlamed(m, m.profiles.Keys, c, urlOK)
      ensures exists name :: name in m.profiles && !ProfileOK(name, m.profiles[name], urlOK)
    {
      if c.place.InProfile? { assert !ProfileOK(c.place.name, m.profiles[c.place.name], urlOK); }
    }
  }

  lemma GroupsUnblamed(m: Manifest)
    ensures (forall name <- m.groups :: GroupOK(m, name, m.groups[name]))
       <==> forall c :: !GroupsBlamed(m, m.groups.Keys, c)
  {
    hide Blank;
    forall name | name in m.groups && !GroupOK(m, name, m.groups[name])
      ensures exists c :: GroupsBlamed(m, m.groups.Keys, c)
    {
      if Blank(name) {
        assert GroupsBlamed(m, m.groups.Keys, Complaint(Whole, EmptyGroupKey));
      } else {
        var t := if Blank(m.groups[name].profile) then ProfileRequired else ProfileMissing;
        assert GroupsBlamed(m, m.groups.Keys, Complaint(InGroup(name), t));
      }
    }
    forall c | GroupsBlamed(m, m.groups.Keys, c)
      ensures exists name :: name in m.groups && !GroupOK(m, name, m.groups[name])
    {
      if c.place.InGroup? { assert !GroupOK(m, c.place.name, m.groups[c.place.name]); }
    }
  }

  lemma OwnUnblamed(m: Manifest, inst: Instance, urlOK: string -> bool)
    ensures OwnTopics(m, inst, urlOK) == {} <==> InstanceOK(m, inst, urlOK)
  {
    hide Blank, ResolvedHostID;
  }

  lemma RepeatedUnblamed(insts: seq<Instance>, n: nat)
    requires n < |insts| && !Blank(insts[n].instanceID) && !Blank(insts[n].egmID)
    ensures RepeatedTopics(insts, n) == {} <==> forall i :: 0 <= i < n ==> Apart(insts[i], insts[n])
  {
    hide Blank;
    if RepeatedTopics(insts, n) == {} {
      assert Duplicate(InstanceID) !in RepeatedTopics(insts, n) && Duplicate(EGMID) !in RepeatedTopics(insts, n);
      assert Duplicate(WirePort) !in RepeatedTopics(insts, n) && Duplicate(ControlPort) !in RepeatedTopics(insts, n);
    }
  }

  lemma InstancesUnblamed(m: Manifest, urlOK: string -> bool)
    ensures InstancesOK(m, |m.instances|, urlOK) <==> forall c :: !InstancesBlamed(m, |m.instances|, c, urlOK)
  {
    hide InstanceOK, Apart, OwnTopics, RepeatedTopics;
    forall n | 0 <= n < |m.instances|
      ensures InstanceOK(m, m.instances[n], urlOK) && (forall i :: 0 <= i < n ==> Apart(m.instances[i], m.instances[n]))
         <==> OwnTopics(m, m.instances[n], urlOK) + RepeatedTopics(m.instances, n) == {}
    {
      OwnUnblamed(m, m.instances[n], urlOK);
      if InstanceOK(m, m.instances[n], urlOK) {
        NamedInstance(m, m.instances[n], urlOK);
        RepeatedUnblamed(m.instances, n);
      }
    }
    if !InstancesOK(m, |m.instances|, urlOK) {
      var n :| 0 <= n < |m.instances| && OwnTopics(m, m.instances[n], urlOK) + RepeatedTopics(m.instances, n) != {};
      var t :| t in OwnTopics(m, m.instances[n], urlOK) + RepeatedTopics(m.instances, n);
      assert InstancesBlamed(m, |m.instances|, Complaint(InInstance(n), t), urlOK);
    }
  }

  lemma NamedInstance(m: Manifest, inst: Instance, urlOK: string -> bool)
    requires InstanceOK(m, inst, urlOK)
    ensures !Blank(inst.instanceID) && !Blank(inst.egmID)
  {
  }

  /** A manifest is valid exactly when there is nothing to complain of. */
  lemma ValidUnblamed(m: Manifest, urlOK: string -> bool)
    ensures ValidManifest(m, urlOK) <==> forall c :: !Blamed(m, c, urlOK)
  {
    hide HeaderOK, HeaderBlamed, ProfileOK, ProfilesBlamed, GroupOK, GroupsBlamed, InstancesOK, InstancesBlamed;
    HeaderUnblamed(m, urlOK);
    ProfilesUnblamed(m, urlOK);
    GroupsUnblamed(m);
    InstancesUnblamed(m, urlOK);
    forall c
      ensures Blamed(m, c, urlOK) <==>
        (HeaderBlamed(m, c, urlOK) || ProfilesBlamed(m, m.profiles.Keys, c, urlOK)
         || GroupsBlamed(m, m.groups.Keys, c) || InstancesBlamed(m, |m.instances|, c, urlOK))
    {
    }
  }

  // ----- the complaints, topic by topic -----

  /** What is wrong with an endpoint at some place, and with a host URL. */
  ghost predicate SaysOfEndpoint(m: Manifest, place: Place, e: Endpoint, url: string, urlOK: string -> bool) {
    && (Blamed(m, Complaint(place, EndpointScheme), urlOK) <==> e.scheme != "" && e.scheme != "http" && e.scheme != "https")
    && (Blamed(m, Complaint(place, EndpointPort), urlOK) <==> e.port < 0 || e.port > 65535)
    && (Blamed(m, Complaint(place, EndpointPath), urlOK) <==> e.path != "" && e.path[0] != '/')
    && (Blamed(m, Complaint(place, HostURL), urlOK) <==> url != "" && !urlOK(url))
  }

  lemma EndpointSays(e: Endpoint, url: string, urlOK: string -> bool)
    ensures var topics := EndpointTopics(e) + URLTopics(url, urlOK);
            && (EndpointScheme in topics <==> e.scheme != "" && e.scheme != "http" && e.scheme != "https")
            && (EndpointPort in topics <==> e.port < 0 || e.port > 65535)
            && (EndpointPath in topics <==> e.path != "" && e.path[0] != '/')
            && (HostURL in topics <==> url != "" && !urlOK(url))
            && topics <= {EndpointScheme, EndpointPort, EndpointPath, HostURL}
  {
  }

  lemma HeaderSays(m: Manifest)
    ensures SchemaVersion in HeaderTopics(m) <==> m.schemaVersion != "vegm.fleet-manifest/v1"
    ensures FleetName in HeaderTopics(m) <==> TrimSpace(m.fleetName) == ""
    ensures NoProfiles in HeaderTopics(m) <==> m.profiles == map[]
    ensures NoGroups in HeaderTopics(m) <==> m.groups == map[]
    ensures NoInstances in HeaderTopics(m) <==> m.instances == []
    ensures HeaderTopics(m) <= {SchemaVersion, FleetName, NoProfiles, NoGroups, NoInstances}
  {
    hide TrimSpace;
  }

  /** Complaints about the whole manifest are of its header or of an empty key. */
  lemma HeaderComplaints(m: Manifest, urlOK: string -> bool)
    ensures Blamed(m, Complaint(Whole, SchemaVersion), urlOK) <==> m.schemaVersion != "vegm.fleet-manifest/v1"
    ensures Blamed(m, Complaint(Whole, FleetName), urlOK) <==> TrimSpace(m.fleetName) == ""
    ensures Blamed(m, Complaint(Whole, NoProfiles), urlOK) <==> m.profiles == map[]
    ensures Blamed(m, Complaint(Whole, NoGroups), urlOK) <==> m.groups == map[]
    ensures Blamed(m, Complaint(Whole, NoInstances), urlOK) <==> m.instances == []
    ensures Blamed(m, Complaint(Whole, EmptyProfileKey), urlOK) <==> exists name <- m.profiles :: TrimSpace(name) == ""
    ensures Blamed(m, Complaint(Whole, EmptyGroupKey), urlOK) <==> exists name <- m.groups :: TrimSpace(name) == ""
  {
    hide TrimSpace, HeaderTopics;
    HeaderSays(m);
    hide ProfileTopics, GroupTopics, OwnTopics, RepeatedTopics, EndpointTopics, URLTopics;
  }

  lemma DefaultsComplaints(m: Manifest, urlOK: string -> bool)
    ensures SaysOfEndpoint(m, InDefaults, m.defaults.egmEndpoint, m.defaults.hostURL, urlOK)
  {
    EndpointSays(m.defaults.egmEndpoint, m.defaults.hostURL, urlOK);
    hide HeaderTopics, ProfileTopics, GroupTopics, OwnTopics, RepeatedTopics, EndpointTopics, URLTopics, Blank;
  }

  lemma ProfileComplaints(m: Manifest, name: string, urlOK: string -> bool)
    requires name in m.profiles && TrimSpace(name) != ""
    ensures var p := m.profiles[name];
            && (Blamed(m, Complaint(InProfile(name), PackFile), urlOK) <==> TrimSpace(p.packFile) == "")
            && (Blamed(m, Complaint(InProfile(name), LogicalCommands), urlOK) <==> p.logicalCommands == map[])
            && SaysOfEndpoint(m, InProfile(name), p.egmEndpoint, p.hostURL, urlOK)
  {
    var p := m.profiles[name];
    hide TrimSpace, HeaderTopics, GroupTopics, OwnTopics, RepeatedTopics, EndpointTopics, URLTopics;
    EndpointSays(p.egmEndpoint, p.hostURL, urlOK);
    forall t ensures Blamed(m, Complaint(InProfile(name), t), urlOK) <==> t in ProfileTopics(p, urlOK) {}
    hide Blamed;
  }

  lemma GroupComplaints(m: Manifest, name: string, urlOK: string -> bool)
    requires name in m.groups && TrimSpace(name) != ""
    ensures var profile := m.groups[name].profile;
            && (Blamed(m, Complaint(InGroup(name), ProfileRequired), urlOK) <==> TrimSpace(profile) == "")
            && (Blamed(m, Complaint(InGroup(name), ProfileMissing), urlOK) <==>
                  TrimSpace(profile) != "" && profile !in m.profiles)
  {
    hide TrimSpace;
  }

  /** No layer gives the instance a host id. */
  predicate NoHostID(m: Manifest, inst: Instance) {
    inst.hostID == "" && m.defaults.hostID == ""
    && (inst.group in m.groups && m.groups[inst.group].profile in m.profiles ==>
          m.profiles[m.groups[inst.group].profile].hostID == "")
  }

  lemma IdentitySays(m: Manifest, x: Instance)
    ensures var topics := IdentityTopics(m, x);
            && (InstanceID in topics <==> TrimSpace(x.instanceID) == "") && (EGMID in topics <==> TrimSpace(x.egmID) == "")
            && (HostID in topics <==> NoHostID(m, x))
            && (GroupRequired in topics <==> TrimSpace(x.group) == "")
            && (GroupMissing in topics <==> TrimSpace(x.group) != "" && x.group !in m.groups)
            && topics <= {InstanceID, EGMID, HostID, GroupRequired, GroupMissing}
  {
    HostIDSays(m, x);
    hide TrimSpace, ResolvedHostID, NoHostID;
  }

  lemma UnionSays(identity: set<Topic>, wire: bool, control: bool, endpoint: set<Topic>)
    requires identity <= {InstanceID, EGMID, HostID, GroupRequired, GroupMissing}
    requires endpoint <= {EndpointScheme, EndpointPort, EndpointPath, HostURL}
    ensures var topics := identity + When(wire, WirePort) + When(control, ControlPort) + endpoint;
            && (WirePort in topics <==> wire) && (ControlPort in topics <==> control)
            && (forall t :: t in {InstanceID, EGMID, HostID, GroupRequired, GroupMissing} ==> (t in topics <==> t in identity))
            && (forall t :: t in {EndpointScheme, EndpointPort, EndpointPath, HostURL} ==> (t in topics <==> t in endpoint))
            && (forall t :: t in topics ==> !t.Duplicate?)
  {
  }

  /** The topics of an instance by itself are those of its identity, its two ports and its endpoints. */
  lemma OwnSays(m: Manifest, x: Instance, urlOK: string -> bool)
    ensures var topics := OwnTopics(m, x, urlOK);
            && (WirePort in topics <==> x.wirePort < 0) && (ControlPort in topics <==> x.controlPort < 0)
            && (forall t :: t in {InstanceID, EGMID, HostID, GroupRequired, GroupMissing} ==>
                  (t in topics <==> t in IdentityTopics(m, x)))
            && (forall t :: t in {EndpointScheme, EndpointPort, EndpointPath, HostURL} ==>
                  (t in topics <==> t in EndpointTopics(x.egmEndpoint) + URLTopics(x.hostURL, urlOK)))
            && (forall t :: t in topics ==> !t.Duplicate?)
  {
    hide IdentityTopics, EndpointTopics, URLTopics, TrimSpace, NoHostID, When;
    EndpointSays(x.egmEndpoint, x.hostURL, urlOK);
    IdentitySays(m, x);
    var identity, endpoint := IdentityTopics(m, x), EndpointTopics(x.egmEndpoint) + URLTopics(x.hostURL, urlOK);
    UnionSays(identity, x.wirePort < 0, x.controlPort < 0, endpoint);
    assert OwnTopics(m, x, urlOK) ==
      identity + When(x.wirePort < 0, WirePort) + When(x.controlPort < 0, ControlPort) + endpoint;
    hide *;
  }

  lemma HostIDSays(m: Manifest, x: Instance)
    ensures ResolvedHostID(m, x) == "" <==> NoHostID(m, x)
  {
  }

  /** The topics of an instance: its own and what it repeats. */
  lemma InstanceTopics(m: Manifest, n: nat, urlOK: string -> bool)
    requires n < |m.instances|
    ensures forall t :: Blamed(m, Complaint(InInstance(n), t), urlOK) <==>
      t in OwnTopics(m, m.instances[n], urlOK) || t in RepeatedTopics(m.instances, n)
  {
    hide HeaderTopics, ProfileTopics, GroupTopics, OwnTopics, RepeatedTopics, EndpointTopics, URLTopics, Blank;
  }

  lemma InstanceComplaints(m: Manifest, n: nat, urlOK: string -> bool)
    requires n < |m.instances|
    ensures var x := m.instances[n];
            && (Blamed(m, Complaint(InInstance(n), InstanceID), urlOK) <==> TrimSpace(x.instanceID) == "")
            && (Blamed(m, Complaint(InInstance(n), EGMID), urlOK) <==> TrimSpace(x.egmID) == "")
            && (Blamed(m, Complaint(InInstance(n), HostID), urlOK) <==> NoHostID(m, x))
            && (Blamed(m, Complaint(InInstance(n), GroupRequired), urlOK) <==> TrimSpace(x.group) == "")
            && (Blamed(m, Complaint(InInstance(n), GroupMissing), urlOK) <==> TrimSpace(x.group) != "" && x.group !in m.groups)
            && (Blamed(m, Complaint(InInstance(n), WirePort), urlOK) <==> x.wirePort < 0)
            && (Blamed(m, Complaint(InInstance(n), ControlPort), urlOK) <==> x.controlPort < 0)
            && SaysOfEndpoint(m, InInstance(n), x.egmEndpoint, x.hostURL, urlOK)
  {
    InstanceTopics(m, n, urlOK);
    OwnSays(m, m.instances[n], urlOK);
    IdentitySays(m, m.instances[n]);
    OnlyRepeated(m.instances, n);
    EndpointSays(m.instances[n].egmEndpoint, m.instances[n].hostURL, urlOK);
    hide Blamed, OwnTopics, RepeatedTopics, TrimSpace, NoHostID, EndpointTopics, URLTopics;
  }

  lemma RepeatedSays(xs: seq<Instance>, n: nat)
    requires n < |xs|
    ensures var topics := RepeatedTopics(xs, n);
            && (Duplicate(InstanceID) in topics <==>
                  TrimSpace(xs[n].instanceID) != "" && exists i :: 0 <= i < n && xs[i].instanceID == xs[n].instanceID)
            && (Duplicate(EGMID) in topics <==>
                  TrimSpace(xs[n].egmID) != "" && exists i :: 0 <= i < n && xs[i].egmID == xs[n].egmID)
            && (Duplicate(WirePort) in topics <==>
                  xs[n].wirePort > 0 && exists i :: 0 <= i < n && xs[i].wirePort == xs[n].wirePort)
            && (Duplicate(ControlPort) in topics <==>
                  xs[n].controlPort > 0 && exists i :: 0 <= i < n && xs[i].controlPort == xs[n].controlPort)
  {
    hide TrimSpace;
  }

  lemma OnlyRepeated(xs: seq<Instance>, n: nat)
    requires n < |xs|
    ensures forall t :: t in RepeatedTopics(xs, n) ==> t.Duplicate?
  {
  }

  /** The later of two instances with the same id or explicit port is the one complained of. */
  lemma DuplicateComplaints(m: Manifest, n: nat, urlOK: string -> bool)
    requires n < |m.instances|
    ensures var xs := m.instances;
            && (Blamed(m, Complaint(InInstance(n), Duplicate(InstanceID)), urlOK) <==>
                  TrimSpace(xs[n].instanceID) != "" && exists i :: 0 <= i < n && xs[i].instanceID == xs[n].instanceID)
            && (Blamed(m, Complaint(InInstance(n), Duplicate(EGMID)), urlOK) <==>
                  TrimSpace(xs[n].egmID) != "" && exists i :: 0 <= i < n && xs[i].egmID == xs[n].egmID)
            && (Blamed(m, Complaint(InInstance(n), Duplicate(WirePort)), urlOK) <==>
                  xs[n].wirePort > 0 && exists i :: 0 <= i < n && xs[i].wirePort == xs[n].wirePort)
            && (Blamed(m, Complaint(InInstance(n), Duplicate(ControlPort)), urlOK) <==>
                  xs[n].controlPort > 0 && exists i :: 0 <= i < n && xs[i].controlPort == xs[n].controlPort)
  {
    InstanceTopics(m, n, urlOK);
    OwnSays(m, m.instances[n], urlOK);
    hide OwnTopics, TrimSpace, IdentityTopics, EndpointTopics, URLTopics, Blamed;
    RepeatedSays(m.instances, n);
    hide RepeatedTopics;
  }

  // ----- ValidateManifest -----

  /** errs, and beside them exactly these topics at this place. */
  ghost predicate Adds(errs: seq<Complaint>, out: seq<Complaint>, place: Place, topics: set<Topic>) {
    forall c :: c in out <==> c in errs || (c.place == place && c.topic in topics)
  }

  function Note(errs: seq<Complaint>, bad: bool, place: Place, topic: Topic): (out: seq<Complaint>)
    ensures Adds(errs, out, place, When(bad, topic))
  {
    if bad then errs + [Complaint(place, topic)] else errs
  }

  method ValidateEndpoint(place: Place, e: Endpoint, errs: seq<Complaint>) returns (out: seq<Complaint>)
    ensures Adds(errs, out, place, EndpointTopics(e))
  {
    out := errs;
    if e == NO_ENDPOINT { return; }
    out := Note(out, e.scheme != "" && e.scheme != HTTP && e.scheme != HTTPS, place, EndpointScheme);
    out := Note(out, e.port < 0 || e.port > 65535, place, EndpointPort);
    out := Note(out, e.path != "" && e.path[0] != '/', place, EndpointPath);
  }

  method ValidateHostEndpoint(place: Place, u: string, urlOK: string -> bool, errs: seq<Complaint>)
    returns (out: seq<Complaint>)
    ensures Adds(errs, out, place, URLTopics(u, urlOK))
  {
    out := Note(errs, u != "" && !urlOK(u), place, HostURL);
  }

  /** Map iteration order is not fixed: the invariant holds for whichever names came first. */
  method ValidateProfiles(m: Manifest, urlOK: string -> bool, errs: seq<Complaint>) returns (out: seq<Complaint>)
    ensures forall c :: c in out <==> c in errs || ProfilesBlamed(m, m.profiles.Keys, c, urlOK)
  {
    hide Blank;
    out := errs;
    var rest := m.profiles.Keys;
    while rest != {}
      invariant rest <= m.profiles.Keys
      invariant forall c :: c in out <==> c in errs || ProfilesBlamed(m, m.profiles.Keys - rest, c, urlOK)
    {
      var name :| name in rest;
      ghost var done := m.profiles.Keys - rest;
      rest := rest - {name};
      assert m.profiles.Keys - rest == done + {name};
      if Blank(name) {
        out := out + [Complaint(Whole, EmptyProfileKey)];
      } else {
        out := ValidateProfile(name, m.profiles[name], urlOK, out);
      }
    }
    assert m.profiles.Keys - rest == m.profiles.Keys;
  }

  method ValidateProfile(name: string, p: Profile, urlOK: string -> bool, errs: seq<Complaint>)
    returns (out: seq<Complaint>)
    ensures Adds(errs, out, InProfile(name), ProfileTopics(p, urlOK))
  {
    out := Note(errs, Blank(p.packFile), InProfile(name), PackFile);
    out := Note(out, |p.logicalCommands| == 0, InProfile(name), LogicalCommands);
    out := ValidateEndpoint(InProfile(name), p.egmEndpoint, out);
    out := ValidateHostEndpoint(InProfile(name), p.hostURL, urlOK, out);
  }

  method ValidateGroups(m: Manifest, errs: seq<Complaint>) returns (out: seq<Complaint>)
    ensures forall c :: c in out <==> c in errs || GroupsBlamed(m, m.groups.Keys, c)
  {
    hide Blank;
    out := errs;
    var rest := m.groups.Keys;
    while rest != {}
      invariant rest <= m.groups.Keys
      invariant forall c :: c in out <==> c in errs || GroupsBlamed(m, m.groups.Keys - rest, c)
    {
      var name :| name in rest;
      ghost var done := m.groups.Keys - rest;
      rest := rest - {name};
      assert m.groups.Keys - rest == done + {name};
      if Blank(name) { out := out + [Complaint(Whole, EmptyGroupKey)]; continue; }
      if Blank(m.groups[name].profile) { out := out + [Complaint(InGroup(name), ProfileRequired)]; continue; }
      if m.groups[name].profile !in m.profiles { out := out + [Complaint(InGroup(name), ProfileMissing)]; }
    }
    assert m.groups.Keys - rest == m.groups.Keys;
  }

  /** The checks of one instance that look at no other instance. */
  method ValidateInstance(m: Manifest, i: nat, inst: Instance, urlOK: string -> bool, errs: seq<Complaint>)
    returns (out: seq<Complaint>)
    ensures Adds(errs, out, InInstance(i), OwnTopics(m, inst, urlOK))
  {
    out := ValidateIdentity(m, i, inst, errs);
    out := Note(out, inst.wirePort < 0, InInstance(i), WirePort);
    out := Note(out, inst.controlPort < 0, InInstance(i), ControlPort);
    out := ValidateEndpoint(InInstance(i), inst.egmEndpoint, out);
    out := ValidateHostEndpoint(InInstance(i), inst.hostURL, urlOK, out);
  }

  method ValidateIdentity(m: Manifest, i: nat, inst: Instance, errs: seq<Complaint>) returns (out: seq<Complaint>)
    ensures Adds(errs, out, InInstance(i), IdentityTopics(m, inst))
  {
    hide Blank, ResolvedHostID;
    out := Note(errs, Blank(inst.instanceID), InInstance(i), InstanceID);
    out := Note(out, Blank(inst.egmID), InInstance(i), EGMID);
    out := Note(out, ResolvedHostID(m, inst) == "", InInstance(i), HostID);
    if Blank(inst.group) {
      out := out + [Complaint(InInstance(i), GroupRequired)];
    } else if inst.group !in m.groups {
      out := out + [Complaint(InInstance(i), GroupMissing)];
    }
  }

  /** The four seen-maps of ValidateManifest, as the sets of their keys. */
  datatype Seen = Seen(instanceIDs: set<string>, egmIDs: set<string>, wirePorts: set<int>, controlPorts: set<int>)

  /** They hold exactly the non-blank ids and the explicit ports of the first n instances. */
  ghost predicate Remembers(seen: Seen, insts: seq<Instance>, n: nat)
    requires n <= |insts|
  {
    && (forall s :: s in seen.instanceIDs <==> !Blank(s) && exists i :: 0 <= i < n && insts[i].instanceID == s)
    && (forall s :: s in seen.egmIDs <==> !Blank(s) && exists i :: 0 <= i < n && insts[i].egmID == s)
    && (forall p :: p in seen.wirePorts <==> p > 0 && exists i :: 0 <= i < n && insts[i].wirePort == p)
    && (forall p :: p in seen.controlPorts <==> p > 0 && exists i :: 0 <= i < n && insts[i].controlPort == p)
  }

  function Remember(seen: Seen, inst: Instance): Seen {
    Seen(if Blank(inst.instanceID) then seen.instanceIDs else seen.instanceIDs + {inst.instanceID},
         if Blank(inst.egmID) then seen.egmIDs else seen.egmIDs + {inst.egmID},
         if inst.wirePort > 0 then seen.wirePorts + {inst.wirePort} else seen.wirePorts,
         if inst.controlPort > 0 then seen.controlPorts + {inst.controlPort} else seen.controlPorts)
  }

  lemma RememberOne(seen: Seen, insts: seq<Instance>, n: nat)
    requires n < |insts| && Remembers(seen, insts, n)
    ensures Remembers(Remember(seen, insts[n]), insts, n + 1)
  {
    hide Blank;
  }

  function SeenIDTopics(seen: Seen, inst: Instance): set<Topic> {
    When(!Blank(inst.instanceID) && inst.instanceID in seen.instanceIDs, Duplicate(InstanceID))
    + When(!Blank(inst.egmID) && inst.egmID in seen.egmIDs, Duplicate(EGMID))
  }

  function SeenPortTopics(seen: Seen, inst: Instance): set<Topic> {
    When(inst.wirePort > 0 && inst.wirePort in seen.wirePorts, Duplicate(WirePort))
    + When(inst.controlPort > 0 && inst.controlPort in seen.controlPorts, Duplicate(ControlPort))
  }

  /** The seen-maps tell exactly what an instance repeats of the ones before it. */
  lemma SeenIsRepeated(seen: Seen, insts: seq<Instance>, n: nat)
    requires n < |insts| && Remembers(seen, insts, n)
    ensures SeenIDTopics(seen, insts[n]) + SeenPortTopics(seen, insts[n]) == RepeatedTopics(insts, n)
  {
    hide Blank;
  }

  method CheckSeenIDs(seen: Seen, i: nat, inst: Instance, errs: seq<Complaint>)
    returns (out: seq<Complaint>, next: Seen)
    ensures Adds(errs, out, InInstance(i), SeenIDTopics(seen, inst))
    ensures next == Remember(seen, inst).(wirePorts := seen.wirePorts, controlPorts := seen.controlPorts)
  {
    hide Blank;
    out, next := errs, seen;
    if !Blank(inst.instanceID) {
      out := Note(out, inst.instanceID in seen.instanceIDs, InInstance(i), Duplicate(InstanceID));
      next := next.(instanceIDs := next.instanceIDs + {inst.instanceID});
    }
    if !Blank(inst.egmID) {
      out := Note(out, inst.egmID in seen.egmIDs, InInstance(i), Duplicate(EGMID));
      next := next.(egmIDs := next.egmIDs + {inst.egmID});
    }
  }

  method CheckSeenPorts(seen: Seen, i: nat, inst: Instance, errs: seq<Complaint>)
    returns (out: seq<Complaint>, next: Seen)
    ensures Adds(errs, out, InInstance(i), SeenPortTopics(seen, inst))
    ensures next == Remember(seen, inst).(instanceIDs := seen.instanceIDs, egmIDs := seen.egmIDs)
  {
    hide Blank;
    out, next := errs, seen;
    if inst.wirePort > 0 {
      out := Note(out, inst.wirePort in seen.wirePorts, InInstance(i), Duplicate(WirePort));
      next := next.(wirePorts := next.wirePorts + {inst.wirePort});
    }
    if inst.controlPort > 0 {
      out := Note(out, inst.controlPort in seen.controlPorts, InInstance(i), Duplicate(ControlPort));
      next := next.(controlPorts := next.controlPorts + {inst.controlPort});
    }
  }

  /** The duplicate checks of one instance. */
  method CheckSeen(seen: Seen, i: nat, inst: Instance, errs: seq<Complaint>) returns (out: seq<Complaint>, next: Seen)
    ensures Adds(errs, out, InInstance(i), SeenIDTopics(seen, inst) + SeenPortTopics(seen, inst))
    ensures next == Remember(seen, inst)
  {
    hide SeenIDTopics, SeenPortTopics;
    var ids, ports;
    out, ids := CheckSeenIDs(seen, i, inst, errs);
    out, ports := CheckSeenPorts(seen, i, inst, out);
    next := Seen(ids.instanceIDs, ids.egmIDs, ports.wirePorts, ports.controlPorts);
  }

  method ValidateInstances(m: Manifest, urlOK: string -> bool, errs: seq<Complaint>) returns (out: seq<Complaint>)
    ensures forall c :: c in out <==> c in errs || InstancesBlamed(m, |m.instances|, c, urlOK)
  {
    hide OwnTopics, RepeatedTopics, SeenIDTopics, SeenPortTopics, Remembers, Remember;
    out := errs;
    var seen := Seen({}, {}, {}, {});
    NothingSeen(m.instances);
    for i := 0 to |m.instances|
      invariant forall c :: c in out <==> c in errs || InstancesBlamed(m, i, c, urlOK)
      invariant Remembers(seen, m.instances, i)
    {
      var inst := m.instances[i];
      SeenIsRepeated(seen, m.instances, i);
      RememberOne(seen, m.instances, i);
      out := ValidateInstance(m, i, inst, urlOK, out);
      out, seen := CheckSeen(seen, i, inst, out);
    }
  }

  lemma NothingSeen(insts: seq<Instance>)
    ensures Remembers(Seen({}, {}, {}, {}), insts, 0)
  {
  }

  method ValidateHeader(m: Manifest, urlOK: string -> bool) returns (errs: seq<Complaint>)
    ensures forall c :: c in errs <==> HeaderBlamed(m, c, urlOK)
  {
    hide Blank;
    errs := Note([], m.schemaVersion != SCHEMA_VERSION, Whole, SchemaVersion);
    errs := Note(errs, Blank(m.fleetName), Whole, FleetName);
    errs := Note(errs, |m.profiles| == 0, Whole, NoProfiles);
    errs := Note(errs, |m.groups| == 0, Whole, NoGroups);
    errs := Note(errs, |m.instances| == 0, Whole, NoInstances);
    errs := ValidateEndpoint(InDefaults, m.defaults.egmEndpoint, errs);
    errs := ValidateHostEndpoint(InDefaults, m.defaults.hostURL, urlOK, errs);
  }

  method ValidateManifest(m: Manifest, urlOK: string -> bool) returns (errs: seq<Complaint>)
    ensures forall c :: c in errs <==> Blamed(m, c, urlOK)
    ensures errs == [] <==> ValidManifest(m, urlOK)
  {
    hide HeaderBlamed, ProfilesBlamed, GroupsBlamed, InstancesBlamed, ValidManifest;
    errs := ValidateHeader(m, urlOK);
    errs := ValidateProfiles(m, urlOK, errs);
    errs := ValidateGroups(m, errs);
    errs := ValidateInstances(m, urlOK, errs);
    ValidUnblamed(m, urlOK);
    assert errs != [] ==> errs[0] in errs;
  }
}
