/** Two small fleets that show what resolution misses, and what it rejects without need. */
module FleetExamples {
  import opened Text
  import opened Config
  import opened Fleet
  import opened Resolve
  import opened Generate

  // ----- a fleet of two -----

  const NO_CERTS := Certs("", "", "")
  const NO_XML := G2SXML("", "", "")
  const ONE_PROFILE := Profile("k", map["m" := "n"], "", NO_ENDPOINT, "", NO_XML, NO_CERTS)
  const FEW_DEFAULTS := Defaults("", "", 0, 7, NO_ENDPOINT, "", NO_XML, "", "", "", "", "", NO_CERTS)

  /** A machine of group g that leaves everything but its ports, its bind host and its endpoint open. */
  function Machine(id: string, wirePort: int, controlPort: int, bindHost: string, e: Endpoint): Instance {
    Instance(id, id, "H", "g", wirePort, controlPort, bindHost, e, "", NO_XML, "", "", "", "", NO_CERTS)
  }

  /** The manifest of two machines. The control ports it allocates start at 7. */
  function Pair(a: Instance, b: Instance): Manifest {
    Manifest(SCHEMA_VERSION, "f", FEW_DEFAULTS, map["p" := ONE_PROFILE], map["g" := Group("p")], [a, b])
  }

  predicate Tiny(s: string) {
    |s| == 1 && !IsSpace(s[0])
  }

  lemma NotBlank(s: string)
    requires Tiny(s)
    ensures !Blank(s)
  {
  }

  lemma PairParts(a: Instance, b: Instance, urlOK: string -> bool)
    ensures HeaderOK(Pair(a, b), urlOK)
    ensures ProfileOK("p", ONE_PROFILE, urlOK) && GroupOK(Pair(a, b), "g", Group("p"))
  {
    hide Blank;
    NotBlank("f");
    NotBlank("p");
    NotBlank("k");
    assert "m" in ONE_PROFILE.logicalCommands && "p" in Pair(a, b).profiles && "g" in Pair(a, b).groups;
    GroupName();
  }

  lemma GroupName()
    ensures !Blank("g")
  {
    NotBlank("g");
  }

  lemma MachineOK(m: Manifest, inst: Instance, urlOK: string -> bool)
    requires Tiny(inst.instanceID) && Tiny(inst.egmID) && inst.hostID != "" && inst.group == "g" && "g" in m.groups
    requires inst.wirePort >= 0 && inst.controlPort >= 0 && EndpointOK(inst.egmEndpoint) && inst.hostURL == ""
    ensures InstanceOK(m, inst, urlOK)
  {
    hide Blank;
    NotBlank(inst.instanceID);
    NotBlank(inst.egmID);
    GroupName();
  }

  lemma PairValid(a: Instance, b: Instance, urlOK: string -> bool)
    requires InstanceOK(Pair(a, b), a, urlOK) && InstanceOK(Pair(a, b), b, urlOK) && Apart(a, b)
    ensures ValidManifest(Pair(a, b), urlOK)
  {
    hide InstanceOK, Apart, HeaderOK, ProfileOK, GroupOK;
    PairParts(a, b, urlOK);
  }

  lemma MachinesValid(a: Instance, b: Instance, urlOK: string -> bool)
    requires Tiny(a.instanceID) && a == Machine(a.instanceID, a.wirePort, a.controlPort, a.bindHost, a.egmEndpoint)
    requires Tiny(b.instanceID) && b == Machine(b.instanceID, b.wirePort, b.controlPort, b.bindHost, b.egmEndpoint)
    requires a.wirePort >= 0 && a.controlPort >= 0 && b.wirePort >= 0 && b.controlPort >= 0
    requires EndpointOK(a.egmEndpoint) && EndpointOK(b.egmEndpoint) && Apart(a, b)
    ensures ValidManifest(Pair(a, b), urlOK)
  {
    hide ValidManifest, InstanceOK;
    assert a.hostID == "H" && b.hostID == "H" && "g" in Pair(a, b).groups;
    MachineOK(Pair(a, b), a, urlOK);
    MachineOK(Pair(a, b), b, urlOK);
    PairValid(a, b, urlOK);
  }

  lemma PairResolves(m: Manifest, urlOK: string -> bool, join: (string, string) -> string)
    requires ValidManifest(m, urlOK) && |m.instances| == 2
    ensures Resolves(m, urlOK, join) <==> InstancesApart(m, 0, 1, join)
  {
    hide InstancesApart, Layer, ValidManifest;
    ResolvesExactly(m, urlOK, join);
  }

  // ----- one control address for two instances -----

  /** On hosts x and y; the second asks for the control port the first is allocated. */
  const TWO_HOSTS := Pair(Machine("a", 1, 0, "x", NO_ENDPOINT), Machine("b", 2, 7, "y", NO_ENDPOINT))

  lemma TwoHostsValid(urlOK: string -> bool)
    ensures ValidManifest(TWO_HOSTS, urlOK)
  {
    var a, b := Machine("a", 1, 0, "x", NO_ENDPOINT), Machine("b", 2, 7, "y", NO_ENDPOINT);
    assert a.instanceID[0] != b.instanceID[0];
    hide ValidManifest;
    MachinesValid(a, b, urlOK);
  }

  lemma TwoHostsApart(join: (string, string) -> string)
    ensures InstancesApart(TWO_HOSTS, 0, 1, join)
  {
    var a, b := Machine("a", 1, 0, "x", NO_ENDPOINT), Machine("b", 2, 7, "y", NO_ENDPOINT);
    assert ListenHost(FEW_DEFAULTS, ONE_PROFILE, a)[0] == 'x' && ListenHost(FEW_DEFAULTS, ONE_PROFILE, b)[0] == 'y';
    assert ResolvedEndpoint(FEW_DEFAULTS, ONE_PROFILE, a, 0).port == 1;
    assert ResolvedEndpoint(FEW_DEFAULTS, ONE_PROFILE, b, 1).port == 2;
    assert |ResolvedEndpoint(FEW_DEFAULTS, ONE_PROFILE, a, 0).host| == 1;
    assert |ResolvedEndpoint(FEW_DEFAULTS, ONE_PROFILE, b, 1).host| == 1;
  }

  /** A fleet can resolve and still give two instances one control address. */
  lemma SharedControlBind(urlOK: string -> bool, join: (string, string) -> string)
    ensures Resolves(TWO_HOSTS, urlOK, join)
    ensures ControlBind(Layer(TWO_HOSTS, 0, join)) == ControlBind(Layer(TWO_HOSTS, 1, join))
  {
    assert TakesAllocated(TWO_HOSTS, 1, 0);
    hide ValidManifest, InstancesApart, Resolves, Layer, ControlBind;
    TwoHostsValid(urlOK);
    TwoHostsApart(join);
    PairResolves(TWO_HOSTS, urlOK, join);
    ControlBindCollision(TWO_HOSTS, 0, 1, urlOK, join);
  }

  // ----- one endpoint key for two endpoints -----

  const LEFT := Endpoint("", "", "h:1/p", 2, "/q")
  const RIGHT := Endpoint("", "", "h", 1, "/p:2/q")

  /** Two endpoints that have one key although nothing of them coincides. */
  const TWO_ENDPOINTS := Pair(Machine("a", 0, 0, "", LEFT), Machine("b", 0, 0, "", RIGHT))

  lemma TwoEndpointsValid(urlOK: string -> bool)
    ensures ValidManifest(TWO_ENDPOINTS, urlOK)
  {
    var a, b := Machine("a", 0, 0, "", LEFT), Machine("b", 0, 0, "", RIGHT);
    assert a.instanceID[0] != b.instanceID[0];
    hide ValidManifest;
    MachinesValid(a, b, urlOK);
  }

  lemma TwoEndpointsLayers(join: (string, string) -> string)
    ensures Layer(TWO_ENDPOINTS, 0, join).egmEndpoint == Endpoint(HTTP, LOOPBACK, "h:1/p", 2, "/q")
    ensures Layer(TWO_ENDPOINTS, 1, join).egmEndpoint == Endpoint(HTTP, LOOPBACK, "h", 1, "/p:2/q")
    ensures Layer(TWO_ENDPOINTS, 0, join).wirePort == 2 && Layer(TWO_ENDPOINTS, 1, join).wirePort == 1
    ensures Layer(TWO_ENDPOINTS, 0, join).controlPort == 7 && Layer(TWO_ENDPOINTS, 1, join).controlPort == 8
  {
  }

  lemma TwoEndpointsStraddle()
    ensures Straddles(Endpoint(HTTP, LOOPBACK, "h:1/p", 2, "/q"), Endpoint(HTTP, LOOPBACK, "h", 1, "/p:2/q"))
  {
    var a, b := Endpoint(HTTP, LOOPBACK, "h:1/p", 2, "/q"), Endpoint(HTTP, LOOPBACK, "h", 1, "/p:2/q");
    assert Itoa(2) == "2" && Itoa(1) == "1";
    assert BindKey(b.host, b.port) == "h:1" && a.host[3..] == "/p" && KeyTail(a) == ":2/q";
  }

  /** A valid fleet is rejected although its listeners differ, and its endpoints in host, port and path. */
  lemma EGMKeyAmbiguous(urlOK: string -> bool, join: (string, string) -> string)
    ensures ValidManifest(TWO_ENDPOINTS, urlOK) && !Resolves(TWO_ENDPOINTS, urlOK, join)
    ensures var a, b := Layer(TWO_ENDPOINTS, 0, join), Layer(TWO_ENDPOINTS, 1, join);
            && a.wirePort != b.wirePort && a.controlPort != b.controlPort
            && a.egmEndpoint.host != b.egmEndpoint.host && a.egmEndpoint.port != b.egmEndpoint.port
            && a.egmEndpoint.path != b.egmEndpoint.path
  {
    hide ValidManifest, Layer, Straddles;
    TwoEndpointsValid(urlOK);
    TwoEndpointsLayers(join);
    TwoEndpointsStraddle();
    PairResolves(TWO_ENDPOINTS, urlOK, join);
    assert |"h:1/p"| == 5 && |"h"| == 1 && |"/q"| == 2 && |"/p:2/q"| == 6;
  }
}
