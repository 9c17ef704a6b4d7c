/** Resolving a valid manifest: layered settings, allocated ports, and the collision
    checks, which compare formatted keys. */
module Resolve {
  import opened Text
  import opened Config
  import opened Fleet

  datatype Effective = Effective(
    instanceID: string, egmID: string, hostID: string, group: string, profile: string, listenHost: string, wirePort: int,
    controlPort: int, egmEndpoint: Endpoint, hostURL: string, g2sXML: G2SXML, trustMode: string, packFile: string,
    logDir: string, storageBackend: string, sqlitePath: string, certs: Certs)

  datatype Failure =
    | Rejected(errs: seq<Complaint>) | NoPackFile(instanceID: string)
    | Clash(family: Family, prior: string, instanceID: string)

  // ----- layers -----

  function MergeEndpoint(base: Endpoint, overlay: Endpoint): Endpoint {
    Endpoint(OrElse(overlay.scheme, base.scheme), OrElse(overlay.bindIP, base.bindIP), OrElse(overlay.host, base.host),
             Or(overlay.port, base.port), OrElse(overlay.path, base.path))
  }

  function MergeG2SXML(base: G2SXML, overlay: G2SXML): G2SXML {
    G2SXML(OrElse(overlay.mode, base.mode), OrElse(overlay.namespace, base.namespace),
           OrElse(overlay.egmLocation, base.egmLocation))
  }

  lemma MergeEndpointMonoid(a: Endpoint, b: Endpoint, c: Endpoint)
    ensures MergeEndpoint(MergeEndpoint(a, b), c) == MergeEndpoint(a, MergeEndpoint(b, c))
    ensures MergeEndpoint(a, NO_ENDPOINT) == a == MergeEndpoint(NO_ENDPOINT, a)
  {
  }

  /** The group and profile an instance names; an absent one reads as all empty. */
  function GroupOf(m: Manifest, inst: Instance): Group {
    if inst.group in m.groups then m.groups[inst.group] else Group("")
  }

  function ProfileOf(m: Manifest, inst: Instance): Profile {
    var name := GroupOf(m, inst).profile;
    if name in m.profiles then m.profiles[name] else NO_PROFILE
  }

  function MergedEndpoint(d: Defaults, p: Profile, inst: Instance): Endpoint {
    MergeEndpoint(MergeEndpoint(d.egmEndpoint, p.egmEndpoint), inst.egmEndpoint)
  }

  function ListenHost(d: Defaults, p: Profile, inst: Instance): string {
    OrElse(inst.bindHost, OrElse(inst.egmEndpoint.bindIP, OrElse(p.egmEndpoint.bindIP,
      OrElse(d.egmEndpoint.bindIP, OrElse(d.listenHost, LOOPBACK)))))
  }

  function WirePortOf(d: Defaults, p: Profile, inst: Instance, idx: nat): int {
    Or(inst.wirePort,
       Or(Or(inst.egmEndpoint.port, Or(p.egmEndpoint.port, d.egmEndpoint.port)), d.wirePortBase + idx))
  }

  function ControlPortOf(d: Defaults, inst: Instance, idx: nat): int {
    Or(inst.controlPort, d.controlPortBase + idx)
  }

  function HostIDOf(d: Defaults, p: Profile, inst: Instance): string {
    OrElse(inst.hostID, OrElse(p.hostID, OrElse(d.hostID, "HOST-001")))
  }

  function TrustModeOf(d: Defaults): string {
    OrElse(d.trustMode, PLAINTEXT)
  }

  function ResolvedEndpoint(d: Defaults, p: Profile, inst: Instance, idx: nat): Endpoint {
    var e := MergedEndpoint(d, p, inst);
    var bindIP := OrElse(e.bindIP, ListenHost(d, p, inst));
    Endpoint(OrElse(e.scheme, if TrustModeOf(d) == PLAINTEXT then HTTP else HTTPS), bindIP,
             OrElse(e.host, OrElse(inst.advertisedHost, OrElse(inst.advertisedIP, bindIP))),
             Or(e.port, WirePortOf(d, p, inst, idx)), OrElse(e.path, "/g2s"))
  }

  /** defaultG2SXML: unlike the runtime's default, the location needs a positive port. */
  function ResolvedG2SXML(x: G2SXML, e: Endpoint): G2SXML {
    G2SXML(OrElse(x.mode, LEGACY_XML), OrElse(x.namespace, NAMESPACE),
           if x.egmLocation == "" && e.host != "" && e.port > 0 then e.host + ":" + Itoa(e.port) else x.egmLocation)
  }

  function LogDirOf(d: Defaults, inst: Instance, join: (string, string) -> string): string {
    if inst.logDir != "" then inst.logDir else join(OrElse(d.logRoot, "./logs"), inst.instanceID)
  }

  function SQLitePathOf(d: Defaults, inst: Instance, logDir: string, join: (string, string) -> string): string {
    if inst.sqlitePath == "" && d.storageBackend == "sqlite"
    then join(OrElse(d.sqliteRoot, logDir), inst.instanceID + "-index.db")
    else inst.sqlitePath
  }

  function CertsOf(d: Certs, p: Certs, inst: Certs): Certs {
    Certs(OrElse(inst.certFile, OrElse(p.certFile, d.certFile)), OrElse(inst.keyFile, OrElse(p.keyFile, d.keyFile)),
          OrElse(inst.caFile, OrElse(p.caFile, d.caFile)))
  }

  /** The instance's settings from its own layer, its profile and the defaults. */
  function Layered(d: Defaults, p: Profile, profile: string, inst: Instance, idx: nat, join: (string, string) -> string)
    : Effective
  {
    var e := ResolvedEndpoint(d, p, inst, idx);
    var logDir := LogDirOf(d, inst, join);
    Effective(inst.instanceID, inst.egmID, HostIDOf(d, p, inst), inst.group, profile, ListenHost(d, p, inst),
              WirePortOf(d, p, inst, idx), ControlPortOf(d, inst, idx), e,
              OrElse(inst.hostURL, OrElse(p.hostURL, d.hostURL)),
              ResolvedG2SXML(MergeG2SXML(MergeG2SXML(d.g2sXML, p.g2sXML), inst.g2sXML), e), TrustModeOf(d),
              OrElse(p.packFile, d.packFile), logDir, OrElse(d.storageBackend, "noop"),
              SQLitePathOf(d, inst, logDir, join), CertsOf(d.certs, p.certs, inst.certs))
  }

  /** What resolveInstance returns when it does not fail. */
  function Layer(m: Manifest, i: nat, join: (string, string) -> string): Effective
    requires i < |m.instances|
  {
    var inst := m.instances[i];
    Layered(m.defaults, ProfileOf(m, inst), GroupOf(m, inst).profile, inst, i, join)
  }

  /** A pack file is named by the profile or by the defaults. */
  predicate Packed(m: Manifest, inst: Instance) {
    OrElse(ProfileOf(m, inst).packFile, m.defaults.packFile) != ""
  }

  function ResolveInstance(m: Manifest, i: nat, join: (string, string) -> string): Result<Effective, Failure>
    requires i < |m.instances|
  {
    if Packed(m, m.instances[i]) then Ok(Layer(m, i, join)) else Err(NoPackFile(m.instances[i].instanceID))
  }

  // ----- the keys -----

  function BindKey(host: string, port: int): string {
    host + ":" + Itoa(port)
  }

  function EGMKey(e: Endpoint): string {
    e.scheme + "://" + e.host + ":" + Itoa(e.port) + e.path
  }

  /** "%s:%d" keys collide exactly when host and port are both equal, whatever the hosts contain. */
  lemma BindKeyInjective(h1: string, p1: int, h2: string, p2: int)
    ensures BindKey(h1, p1) == BindKey(h2, p2) <==> h1 == h2 && p1 == p2
  {
    if BindKey(h1, p1) == BindKey(h2, p2) {
      ItoaPlain(p1);
      ItoaPlain(p2);
      SplitAtLast(h1, Itoa(p1), h2, Itoa(p2), ':');
      ItoaInjective(p1, p2);
    }
  }

  /** An endpoint as resolution leaves it. */
  predicate Resolved(e: Endpoint) {
    (e.scheme == HTTP || e.scheme == HTTPS) && e.path != "" && e.path[0] == '/'
  }

  /** Two equal keys start with the same scheme, and go on equally. */
  lemma SchemeSplits(a: Endpoint, b: Endpoint)
    requires Resolved(a) && Resolved(b) && EGMKey(a) == EGMKey(b)
    ensures a.scheme == b.scheme
    ensures BindKey(a.host, a.port) + a.path == BindKey(b.host, b.port) + b.path
  {
    KeySplits(a);
    KeySplits(b);
    SplitAtFirst(a.scheme, "//" + (BindKey(a.host, a.port) + a.path), b.scheme, "//" + (BindKey(b.host, b.port) + b.path), ':');
    DropTwo("//", BindKey(a.host, a.port) + a.path);
    DropTwo("//", BindKey(b.host, b.port) + b.path);
  }

  lemma KeySplits(e: Endpoint)
    ensures EGMKey(e) == e.scheme + [':'] + ("//" + (BindKey(e.host, e.port) + e.path))
  {
  }

  lemma DropTwo(a: string, b: string)
    requires |a| == 2
    ensures (a + b)[2..] == b
  {
  }

  /** The key after the host. */
  function KeyTail(e: Endpoint): string {
    ":" + Itoa(e.port) + e.path
  }

  /** The ambiguity of the key: a's host swallows b's host, port and the start of b's path. */
  predicate Straddles(a: Endpoint, b: Endpoint) {
    var k := BindKey(b.host, b.port);
    a.scheme == b.scheme && |k| < |a.host| && a.host[..|k|] == k && b.path == a.host[|k|..] + KeyTail(a)
  }

  predicate SameAddress(a: Endpoint, b: Endpoint) {
    a.scheme == b.scheme && a.host == b.host && a.port == b.port && a.path == b.path
  }

  /** EGM keys are equal exactly for the same address, or when one of the two straddles the other. */
  lemma EGMKeysEqual(a: Endpoint, b: Endpoint)
    requires Resolved(a) && Resolved(b)
    ensures EGMKey(a) == EGMKey(b) <==> SameAddress(a, b) || Straddles(a, b) || Straddles(b, a)
  {
    if EGMKey(a) == EGMKey(b) {
      SchemeSplits(a, b);
      if |a.host| == |b.host| {
        SameHosts(a, b);
      } else if |a.host| > |b.host| {
        LongerHost(a, b);
      } else {
        LongerHost(b, a);
      }
    }
    if Straddles(a, b) { StraddlesCollide(a, b); }
    if Straddles(b, a) { StraddlesCollide(b, a); }
  }

  lemma SameHosts(a: Endpoint, b: Endpoint)
    requires Resolved(a) && Resolved(b) && |a.host| == |b.host|
    requires BindKey(a.host, a.port) + a.path == BindKey(b.host, b.port) + b.path
    ensures a.host == b.host && a.port == b.port && a.path == b.path
  {
    var s, t := BindKey(a.host, a.port) + a.path, BindKey(b.host, b.port) + b.path;
    assert s[..|a.host|] == a.host && t[..|b.host|] == b.host;
    assert s[|a.host| + 1..] == Itoa(a.port) + ['/'] + a.path[1..];
    assert t[|b.host| + 1..] == Itoa(b.port) + ['/'] + b.path[1..];
    ItoaPlain(a.port);
    ItoaPlain(b.port);
    SplitAtFirst(Itoa(a.port), a.path[1..], Itoa(b.port), b.path[1..], '/');
    ItoaInjective(a.port, b.port);
    assert a.path == ['/'] + a.path[1..] && b.path == ['/'] + b.path[1..];
  }

  /** Of two equal texts "host:port/path", the longer host starts with all of the other's "host:port". */
  lemma LongerHead(host: string, tail: string, other: string, port: string, path: string)
    requires host + (":" + tail) == (other + ":" + port) + path
    requires |host| > |other| && ':' !in port && path != "" && path[0] == '/'
    ensures var n := |other| + 1 + |port|;
            n < |host| && host[..n] == other + ":" + port && path == host[n..] + (":" + tail)
  {
    var k := other + ":" + port;
    var s := k + path;
    assert s[|host|] == ':';
    assert forall i :: |other| < i < |k| ==> s[i] == port[i - |other| - 1] && s[i] != ':';
    assert s[|k|] == '/';
    assert s[..|k|] == k && s[|k|..] == path;
    assert (host + (":" + tail))[..|k|] == host[..|k|];
    assert (host + (":" + tail))[|k|..] == host[|k|..] + (":" + tail);
  }

  lemma LongerHost(a: Endpoint, b: Endpoint)
    requires Resolved(a) && Resolved(b) && |a.host| > |b.host| && a.scheme == b.scheme
    requires BindKey(a.host, a.port) + a.path == BindKey(b.host, b.port) + b.path
    ensures Straddles(a, b)
  {
    hide Itoa;
    ItoaPlain(b.port);
    var tail := Itoa(a.port) + a.path;
    assert a.host + (":" + tail) == BindKey(a.host, a.port) + a.path;
    assert KeyTail(a) == ":" + tail;
    LongerHead(a.host, tail, b.host, Itoa(b.port), b.path);
  }

  lemma StraddlesCollide(a: Endpoint, b: Endpoint)
    requires Straddles(a, b)
    ensures EGMKey(a) == EGMKey(b)
  {
    var k := BindKey(b.host, b.port);
    assert a.host == k + a.host[|k|..];
    assert EGMKey(a) == a.scheme + "://" + (a.host + KeyTail(a));
    assert EGMKey(b) == b.scheme + "://" + (k + b.path);
    assert a.host + KeyTail(a) == k + (a.host[|k|..] + KeyTail(a));
  }

  /** A straddling host holds a slash, so slash-free hosts never collide that way. */
  lemma StraddleNeedsSlash(a: Endpoint, b: Endpoint)
    requires Resolved(b) && Straddles(a, b)
    ensures '/' in a.host
  {
    var k := BindKey(b.host, b.port);
    assert b.path[0] == a.host[|k|..][0] == a.host[|k|];
  }

  // ----- validateResolvedInstances -----

  datatype Family = Wire | Control | EGM

  /** The three keys of an instance, and its id. */
  datatype Keys = Keys(wire: string, control: string, egm: string, id: string)

  function KeysOf(x: Effective): Keys {
    Keys(BindKey(x.listenHost, x.wirePort), BindKey(x.listenHost, x.controlPort), EGMKey(x.egmEndpoint), x.instanceID)
  }

  function AllKeys(xs: seq<Effective>): seq<Keys> {
    seq(|xs|, i requires 0 <= i < |xs| => KeysOf(xs[i]))
  }

  function Key(f: Family, k: Keys): string {
    match f
    case Wire => k.wire
    case Control => k.control
    case EGM => k.egm
  }

  predicate KeysApart(a: Keys, b: Keys) {
    a.wire != b.wire && a.control != b.control && a.egm != b.egm
  }

  /** The first n instances have pairwise distinct keys, family by family. */
  predicate KeysDistinct(ks: seq<Keys>, n: nat)
    requires n <= |ks|
  {
    forall i, j :: 0 <= i < j < n ==> KeysApart(ks[i], ks[j])
  }

  /** The key map of one family holds exactly the keys of the first n instances, with their owners. */
  ghost predicate Holds(table: map<string, string>, f: Family, ks: seq<Keys>, n: nat)
    requires n <= |ks|
  {
    && (forall k :: k in table ==> exists i {:trigger Key(f, ks[i])} :: 0 <= i < n && Key(f, ks[i]) == k)
    && (forall i {:trigger Key(f, ks[i])} :: 0 <= i < n ==> Key(f, ks[i]) in table && table[Key(f, ks[i])] == ks[i].id)
  }

  /** Instance n repeats no key of one family. */
  ghost predicate NewKey(f: Family, ks: seq<Keys>, n: nat)
    requires n < |ks|
  {
    forall i {:trigger Key(f, ks[i])} :: 0 <= i < n ==> Key(f, ks[i]) != Key(f, ks[n])
  }

  /** The failure names instance n and the earlier owner of its key. */
  ghost predicate Blames(e: Failure, f: Family, ks: seq<Keys>, n: nat)
    requires n < |ks|
  {
    exists i {:trigger Key(f, ks[i])} :: 0 <= i < n && Key(f, ks[i]) == Key(f, ks[n]) && e == Clash(f, ks[i].id, ks[n].id)
  }

  /** The failure is about the first instance that repeats a key, and the first of its families that does: before that
      instance the keys are distinct, and in the families before that one its key is new. */
  ghost predicate FirstClash(e: Failure, ks: seq<Keys>) {
    exists f, n :: 0 <= n < |ks| && Blames(e, f, ks, n) && KeysDistinct(ks, n)
                   && (f != Wire ==> NewKey(Wire, ks, n)) && (f == EGM ==> NewKey(Control, ks, n))
  }

  lemma OneMoreDistinct(ks: seq<Keys>, n: nat)
    requires n < |ks|
    ensures KeysDistinct(ks, n + 1) <==>
      KeysDistinct(ks, n) && NewKey(Wire, ks, n) && NewKey(Control, ks, n) && NewKey(EGM, ks, n)
    ensures KeysDistinct(ks, |ks|) ==> KeysDistinct(ks, n + 1)
  {
    if KeysDistinct(ks, n + 1) {
      forall i | 0 <= i < n ensures KeysApart(ks[i], ks[n]) {}
    } else if KeysDistinct(ks, n) && NewKey(Wire, ks, n) && NewKey(Control, ks, n) {
      var i :| 0 <= i < n && !KeysApart(ks[i], ks[n]);
      assert Key(Wire, ks[i]) != Key(Wire, ks[n]) && Key(Control, ks[i]) != Key(Control, ks[n]);
      assert Key(EGM, ks[i]) == Key(EGM, ks[n]);
    }
  }

  /** One family's check of an instance: its key must be new, and is then remembered. */
  method Enter(table: map<string, string>, f: Family, key: string, id: string, ghost ks: seq<Keys>, ghost n: nat)
    returns (next: map<string, string>, err: Option<Failure>)
    requires n < |ks| && Holds(table, f, ks, n) && key == Key(f, ks[n]) && id == ks[n].id
    ensures err.None? <==> NewKey(f, ks, n)
    ensures err.None? ==> Holds(next, f, ks, n + 1)
    ensures err.Some? ==> Blames(err.value, f, ks, n)
  {
    if key in table { return table, Some(Clash(f, table[key], id)); }
    next, err := table[key := id], None;
  }

  /** The loop of validateResolvedInstances, over the keys it formats. */
  method CheckKeys(ks: seq<Keys>) returns (err: Option<Failure>)
    ensures err.None? <==> KeysDistinct(ks, |ks|)
    ensures err.Some? ==> FirstClash(err.value, ks)
  {
    var wireByBind, controlByBind, egmsByEndpoint := map[], map[], map[];
    for i := 0 to |ks|
      invariant KeysDistinct(ks, i)
      invariant Holds(wireByBind, Wire, ks, i)
      invariant Holds(controlByBind, Control, ks, i)
      invariant Holds(egmsByEndpoint, EGM, ks, i)
    {
      var k := ks[i];
      OneMoreDistinct(ks, i);
      wireByBind, err := Enter(wireByBind, Wire, k.wire, k.id, ks, i);
      if err.Some? { return; }
      controlByBind, err := Enter(controlByBind, Control, k.control, k.id, ks, i);
      if err.Some? { return; }
      egmsByEndpoint, err := Enter(egmsByEndpoint, EGM, k.egm, k.id, ks, i);
      if err.Some? { return; }
    }
    err := None;
  }

  method ValidateResolvedInstances(xs: seq<Effective>) returns (err: Option<Failure>)
    ensures err.None? <==> KeysDistinct(AllKeys(xs), |xs|)
    ensures err.Some? ==> FirstClash(err.value, AllKeys(xs))
  {
    err := CheckKeys(AllKeys(xs));
  }

  // ----- ResolveInstances -----

  /** Every instance resolved, in manifest order. */
  function ResolveAll(m: Manifest, join: (string, string) -> string): seq<Effective> {
    seq(|m.instances|, i requires 0 <= i < |m.instances| => Layer(m, i, join))
  }

  predicate Resolves(m: Manifest, urlOK: string -> bool, join: (string, string) -> string) {
    ValidManifest(m, urlOK) && KeysDistinct(AllKeys(ResolveAll(m, join)), |m.instances|)
  }

  lemma BlankEmpty()
    ensures Blank("")
  {
  }

  /** The pack-file failure of resolveInstance never happens to a valid manifest. */
  lemma ValidInstanceResolves(m: Manifest, i: nat, urlOK: string -> bool)
    requires ValidManifest(m, urlOK) && i < |m.instances|
    ensures var inst := m.instances[i];
            && inst.group in m.groups && m.groups[inst.group].profile in m.profiles
            && ProfileOK(GroupOf(m, inst).profile, ProfileOf(m, inst), urlOK)
    ensures Packed(m, m.instances[i])
  {
    BlankEmpty();
    var inst := m.instances[i];
    assert InstanceOK(m, inst, urlOK);
    assert GroupOK(m, inst.group, m.groups[inst.group]);
    assert ProfileOK(m.groups[inst.group].profile, m.profiles[m.groups[inst.group].profile], urlOK);
  }

  /** The resolving loop of ResolveInstances. */
  method ResolveEach(m: Manifest, join: (string, string) -> string) returns (r: Result<seq<Effective>, Failure>)
    ensures r.Ok? <==> forall i :: 0 <= i < |m.instances| ==> Packed(m, m.instances[i])
    ensures r.Ok? ==> r.value == ResolveAll(m, join)
  {
    var out := [];
    for i := 0 to |m.instances|
      invariant |out| == i
      invariant forall k :: 0 <= k < i ==> Packed(m, m.instances[k]) && out[k] == Layer(m, k, join)
    {
      var eff := ResolveInstance(m, i, join);
      if eff.Err? { return Err(eff.error); }
      out := out + [eff.value];
    }
    assert out == ResolveAll(m, join);
    r := Ok(out);
  }

  method ResolveInstances(m: Manifest, urlOK: string -> bool, join: (string, string) -> string)
    returns (r: Result<seq<Effective>, Failure>)
    ensures r.Ok? <==> Resolves(m, urlOK, join)
    ensures r.Ok? ==> r.value == ResolveAll(m, join)
    ensures r.Err? ==> if ValidManifest(m, urlOK) then FirstClash(r.error, AllKeys(ResolveAll(m, join)))
      else r.error.Rejected? && forall c :: c in r.error.errs <==> Blamed(m, c, urlOK)
  {
    var errs := ValidateManifest(m, urlOK);
    if errs != [] { return Err(Rejected(errs)); }
    r := ResolveEach(m, join);
    if r.Err? {
      forall i | 0 <= i < |m.instances| ensures Packed(m, m.instances[i]) { ValidInstanceResolves(m, i, urlOK); }
      assert false;
    }
    var err := ValidateResolvedInstances(r.value);
    if err.Some? { return Err(err.value); }
  }

  // ----- the two precedence orders -----

  /** Merging layers and listing first-non-empty candidates pick the same values, exactly when the
      instance's own port or bind host does not override a merged one that differs. */
  lemma PrecedencesAgree(m: Manifest, i: nat, join: (string, string) -> string)
    requires i < |m.instances|
    ensures var inst, x := m.instances[i], Layer(m, i, join);
            var merged := MergedEndpoint(m.defaults, ProfileOf(m, inst), inst);
            && (x.egmEndpoint.port == x.wirePort <==>
                  inst.wirePort == 0 || merged.port == 0 || merged.port == inst.wirePort)
            && (x.egmEndpoint.bindIP == x.listenHost <==>
                  inst.bindHost == "" || merged.bindIP == "" || merged.bindIP == inst.bindHost)
            && (inst.group in m.groups ==> (x.hostID == ResolvedHostID(m, inst) <==> ResolvedHostID(m, inst) != ""))
  {
    var inst := m.instances[i];
    var p := ProfileOf(m, inst);
    PortsAgree(m.defaults, p, inst, i);
    if inst.group in m.groups { HostIDsAgree(m, inst); }
  }

  lemma PortsAgree(d: Defaults, p: Profile, inst: Instance, i: nat)
    ensures ResolvedEndpoint(d, p, inst, i).port == WirePortOf(d, p, inst, i) <==>
      inst.wirePort == 0 || MergedEndpoint(d, p, inst).port == 0 || MergedEndpoint(d, p, inst).port == inst.wirePort
    ensures ResolvedEndpoint(d, p, inst, i).bindIP == ListenHost(d, p, inst) <==>
      inst.bindHost == "" || MergedEndpoint(d, p, inst).bindIP == "" || MergedEndpoint(d, p, inst).bindIP == inst.bindHost
  {
  }

  lemma HostIDsAgree(m: Manifest, inst: Instance)
    requires inst.group in m.groups
    ensures HostIDOf(m.defaults, ProfileOf(m, inst), inst) == OrElse(ResolvedHostID(m, inst), "HOST-001")
  {
  }

  /** The value is the first of the candidates that is not empty. */
  predicate FirstOf(value: string, inst: string, profile: string, defaults: string, fallback: string) {
    && (inst != "" ==> value == inst)
    && (inst == "" && profile != "" ==> value == profile)
    && (inst == "" && profile == "" && defaults != "" ==> value == defaults)
    && (inst == "" && profile == "" && defaults == "" ==> value == fallback)
  }

  /** Field by field: the instance's own value overrides its profile's, and that the defaults'. */
  lemma LayersOverride(d: Defaults, p: Profile, name: string, inst: Instance, i: nat, join: (string, string) -> string)
    ensures var x := Layered(d, p, name, inst, i, join);
            && FirstOf(x.hostID, inst.hostID, p.hostID, d.hostID, "HOST-001")
            && FirstOf(x.hostURL, inst.hostURL, p.hostURL, d.hostURL, "")
            && FirstOf(x.g2sXML.mode, inst.g2sXML.mode, p.g2sXML.mode, d.g2sXML.mode, LEGACY_XML)
            && FirstOf(x.g2sXML.namespace, inst.g2sXML.namespace, p.g2sXML.namespace, d.g2sXML.namespace, NAMESPACE)
            && FirstOf(x.certs.certFile, inst.certs.certFile, p.certs.certFile, d.certs.certFile, "")
            && FirstOf(x.certs.keyFile, inst.certs.keyFile, p.certs.keyFile, d.certs.keyFile, "")
            && FirstOf(x.certs.caFile, inst.certs.caFile, p.certs.caFile, d.certs.caFile, "")
    ensures var e := ResolvedEndpoint(d, p, inst, i);
            && FirstOf(e.path, inst.egmEndpoint.path, p.egmEndpoint.path, d.egmEndpoint.path, "/g2s")
            && FirstOf(e.host, inst.egmEndpoint.host, p.egmEndpoint.host, d.egmEndpoint.host,
                       OrElse(inst.advertisedHost, OrElse(inst.advertisedIP, e.bindIP)))
            && FirstOf(e.scheme, inst.egmEndpoint.scheme, p.egmEndpoint.scheme, d.egmEndpoint.scheme,
                       if d.trustMode == "" || d.trustMode == PLAINTEXT then HTTP else HTTPS)
  {
  }

  // ----- collisions of resolved fleets -----

  lemma LayerResolved(m: Manifest, i: nat, urlOK: string -> bool, join: (string, string) -> string)
    requires ValidManifest(m, urlOK) && i < |m.instances|
    ensures Resolved(Layer(m, i, join).egmEndpoint)
  {
    ValidInstanceResolves(m, i, urlOK);
    assert InstanceOK(m, m.instances[i], urlOK);
    MergedIsOK(m.defaults.egmEndpoint, ProfileOf(m, m.instances[i]).egmEndpoint);
    MergedIsOK(MergeEndpoint(m.defaults.egmEndpoint, ProfileOf(m, m.instances[i]).egmEndpoint), m.instances[i].egmEndpoint);
    DefaultedIsResolved(m.defaults, ProfileOf(m, m.instances[i]), m.instances[i], i);
  }

  lemma MergedIsOK(a: Endpoint, b: Endpoint)
    requires EndpointOK(a) && EndpointOK(b)
    ensures EndpointOK(MergeEndpoint(a, b))
  {
  }

  lemma DefaultedIsResolved(d: Defaults, p: Profile, inst: Instance, i: nat)
    requires EndpointOK(MergedEndpoint(d, p, inst))
    ensures Resolved(ResolvedEndpoint(d, p, inst, i))
  {
  }

  /** Two instances share no listener and no endpoint, as addresses rather than as formatted keys,
      and neither endpoint's host straddles the other endpoint. */
  predicate AddressesApart(a: Effective, b: Effective) {
    && (a.listenHost != b.listenHost || (a.wirePort != b.wirePort && a.controlPort != b.controlPort))
    && !SameAddress(a.egmEndpoint, b.egmEndpoint)
    && !Straddles(a.egmEndpoint, b.egmEndpoint) && !Straddles(b.egmEndpoint, a.egmEndpoint)
  }

  lemma KeysAreAddresses(a: Effective, b: Effective)
    requires Resolved(a.egmEndpoint) && Resolved(b.egmEndpoint)
    ensures KeysApart(KeysOf(a), KeysOf(b)) <==> AddressesApart(a, b)
  {
    BindKeyInjective(a.listenHost, a.wirePort, b.listenHost, b.wirePort);
    BindKeyInjective(a.listenHost, a.controlPort, b.listenHost, b.controlPort);
    EGMKeysEqual(a.egmEndpoint, b.egmEndpoint);
  }

  predicate InstancesApart(m: Manifest, i: nat, j: nat, join: (string, string) -> string)
    requires i < |m.instances| && j < |m.instances|
  {
    AddressesApart(Layer(m, i, join), Layer(m, j, join))
  }

  predicate AllApart(m: Manifest, join: (string, string) -> string) {
    forall i, j :: 0 <= i < j < |m.instances| ==> InstancesApart(m, i, j, join)
  }

  lemma PairExact(m: Manifest, i: nat, j: nat, urlOK: string -> bool, join: (string, string) -> string)
    requires ValidManifest(m, urlOK) && i < |m.instances| && j < |m.instances|
    ensures KeysApart(KeysOf(Layer(m, i, join)), KeysOf(Layer(m, j, join))) <==> InstancesApart(m, i, j, join)
  {
    LayerResolved(m, i, urlOK, join);
    LayerResolved(m, j, urlOK, join);
    KeysAreAddresses(Layer(m, i, join), Layer(m, j, join));
  }

  /** A fleet resolves exactly when it is valid and its addresses are pairwise apart. */
  lemma ResolvesExactly(m: Manifest, urlOK: string -> bool, join: (string, string) -> string)
    ensures Resolves(m, urlOK, join) <==> ValidManifest(m, urlOK) && AllApart(m, join)
  {
    hide InstancesApart, Layer, KeysOf, KeysApart, ValidManifest;
    if ValidManifest(m, urlOK) {
      var ks := AllKeys(ResolveAll(m, join));
      forall i, j | 0 <= i < j < |m.instances|
        ensures KeysApart(ks[i], ks[j]) <==> InstancesApart(m, i, j, join)
      {
        PairExact(m, i, j, urlOK, join);
      }
    }
  }

  /** No layer names a port for any instance. */
  predicate NoExplicitPorts(m: Manifest) {
    forall i :: 0 <= i < |m.instances| ==>
      var inst := m.instances[i];
      inst.wirePort == 0 && inst.controlPort == 0 && MergedEndpoint(m.defaults, ProfileOf(m, inst), inst).port == 0
  }

  lemma AllocatedPorts(d: Defaults, p: Profile, inst: Instance, i: nat)
    requires inst.wirePort == 0 && inst.controlPort == 0 && MergedEndpoint(d, p, inst).port == 0
    ensures WirePortOf(d, p, inst, i) == ResolvedEndpoint(d, p, inst, i).port == d.wirePortBase + i
    ensures ControlPortOf(d, inst, i) == d.controlPortBase + i
  {
  }

  /** Allocated ports count up from their bases. */
  lemma AllocatedLayer(m: Manifest, i: nat, join: (string, string) -> string)
    requires NoExplicitPorts(m) && i < |m.instances|
    ensures Layer(m, i, join).wirePort == m.defaults.wirePortBase + i
    ensures Layer(m, i, join).egmEndpoint.port == m.defaults.wirePortBase + i
    ensures Layer(m, i, join).controlPort == m.defaults.controlPortBase + i
  {
    AllocatedPorts(m.defaults, ProfileOf(m, m.instances[i]), m.instances[i], i);
  }

  /** So no two of such a fleet's listeners have the same key, whatever the hosts. */
  lemma AllocatedKeysApart(m: Manifest, i: nat, j: nat, join: (string, string) -> string)
    requires NoExplicitPorts(m) && i < j < |m.instances|
    ensures KeysOf(Layer(m, i, join)).wire != KeysOf(Layer(m, j, join)).wire
    ensures KeysOf(Layer(m, i, join)).control != KeysOf(Layer(m, j, join)).control
  {
    AllocatedLayer(m, i, join);
    AllocatedLayer(m, j, join);
    var a, b := Layer(m, i, join), Layer(m, j, join);
    BindKeyInjective(a.listenHost, a.wirePort, b.listenHost, b.wirePort);
    BindKeyInjective(a.listenHost, a.controlPort, b.listenHost, b.controlPort);
  }

  predicate PlainHosts(m: Manifest, join: (string, string) -> string) {
    forall i :: 0 <= i < |m.instances| ==> '/' !in Layer(m, i, join).egmEndpoint.host
  }

  /** And with slash-free hosts it resolves, however many instances it has. */
  lemma AllocatedFleetResolves(m: Manifest, urlOK: string -> bool, join: (string, string) -> string)
    requires ValidManifest(m, urlOK) && NoExplicitPorts(m) && PlainHosts(m, join)
    ensures Resolves(m, urlOK, join)
  {
    ResolvesExactly(m, urlOK, join);
    forall i, j | 0 <= i < j < |m.instances| ensures InstancesApart(m, i, j, join) {
      AllocatedApart(m, i, j, urlOK, join);
    }
  }

  lemma AllocatedApart(m: Manifest, i: nat, j: nat, urlOK: string -> bool, join: (string, string) -> string)
    requires ValidManifest(m, urlOK) && NoExplicitPorts(m) && PlainHosts(m, join) && i < j < |m.instances|
    ensures InstancesApart(m, i, j, join)
  {
    AllocatedLayer(m, i, join);
    AllocatedLayer(m, j, join);
    LayerResolved(m, i, urlOK, join);
    LayerResolved(m, j, urlOK, join);
    var a, b := Layer(m, i, join).egmEndpoint, Layer(m, j, join).egmEndpoint;
    if Straddles(a, b) { StraddleNeedsSlash(a, b); }
    if Straddles(b, a) { StraddleNeedsSlash(b, a); }
  }
}
