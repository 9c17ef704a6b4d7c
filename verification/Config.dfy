/** The runtime configuration: a validator that fills in defaults as it goes, in place. */
module Config {
  import opened Text

  datatype Endpoint = Endpoint(scheme: string, bindIP: string, host: string, port: int, path: string)

  datatype G2SXML = G2SXML(mode: string, namespace: string, egmLocation: string)

  datatype SessionEngine = SessionEngine(
    enabled: bool, autoStart: bool, commsOnlineTimeoutMS: int, keepAliveIntervalMS: int, reconnectIntervalMS: int)

  datatype Listen = Listen(host: string, port: int)

  datatype Security = Security(trustMode: string, certFile: string, keyFile: string, caFile: string)

  datatype Storage = Storage(backend: string, sqlitePath: string)

  datatype Outbound = Outbound(
    defaultTargetURL: string, timeoutMS: int, heartbeatIntervalMS: int, openRetryIntervalMS: int, failureThreshold: int)

  /** All the settings, as one value. */
  datatype Settings = Settings(
    instanceID: string, hostID: string, egmID: string, endpoint: Endpoint, hostURL: string, g2sXML: G2SXML,
    sessionEngine: SessionEngine, listen: Listen, security: Security, loggingDir: string, storage: Storage,
    controlBind: string, outbound: Outbound, packFile: string, notes: map<string, string>)

  datatype Problem =
    | InstanceIDRequired | EGMIDRequired
    | BadScheme | BindIPRequired | HostRequired | BadPort | BadPath
    | BadHostURL | BadXMLMode | NamespaceRequired | LocationRequired
    | HostURLRequired | LoggingDirRequired | PackFileRequired | NegativeNumber
    | SQLitePathRequired | BadBackend | CertificateRequired | CARequired | BadTrustMode

  const HTTP := "http"
  const HTTPS := "https"
  const PLAINTEXT := "plaintext_lab"
  const LEGACY_XML := "lab_legacy_xml"
  const XSD_XML := "xsd_g2s_message"
  const NAMESPACE := "http://www.gamingstandards.com/g2s/schemas/v1.0.3"
  const LOOPBACK := "127.0.0.1"

  // ----- defaults -----

  function Or(n: int, fallback: int): int {
    if n != 0 then n else fallback
  }

  function DefaultEndpoint(e: Endpoint, listen: Listen, trustMode: string): Endpoint {
    var bindIP := OrElse(e.bindIP, OrElse(listen.host, LOOPBACK));
    Endpoint(OrElse(e.scheme, if trustMode == PLAINTEXT || trustMode == "" then HTTP else HTTPS),
             bindIP, OrElse(e.host, bindIP), Or(e.port, listen.port), OrElse(e.path, "/g2s"))
  }

  function DefaultG2SXML(x: G2SXML, e: Endpoint): G2SXML {
    G2SXML(OrElse(x.mode, LEGACY_XML), OrElse(x.namespace, NAMESPACE), OrElse(x.egmLocation, e.host + ":" + Itoa(e.port)))
  }

  function DefaultEngine(s: SessionEngine): SessionEngine {
    s.(commsOnlineTimeoutMS := Or(s.commsOnlineTimeoutMS, 3000), keepAliveIntervalMS := Or(s.keepAliveIntervalMS, 5000),
       reconnectIntervalMS := Or(s.reconnectIntervalMS, 5000))
  }

  function FallbackHostID(notes: map<string, string>): string {
    OrElse(if "host_id" in notes then notes["host_id"] else "", "HOST-001")
  }

  function DefaultHostID(c: Settings): Settings {
    c.(hostID := OrElse(c.hostID, FallbackHostID(c.notes)))
  }

  /** applyEndpointDefaults, applyG2SXMLDefaults and applySessionEngineDefaults. */
  function ApplyDefaults(c: Settings): Settings {
    var e := DefaultEndpoint(c.endpoint, c.listen, c.security.trustMode);
    c.(endpoint := e, outbound := c.outbound.(defaultTargetURL := OrElse(c.outbound.defaultTargetURL, c.hostURL)),
       g2sXML := DefaultG2SXML(c.g2sXML, e), sessionEngine := DefaultEngine(c.sessionEngine))
  }

  function ListenDefaults(c: Settings): Settings {
    c.(listen := Listen(OrElse(c.listen.host, c.endpoint.bindIP), Or(c.listen.port, c.endpoint.port)))
  }

  // ----- checks -----

  function CheckEndpoint(e: Endpoint): Option<Problem> {
    if e.scheme != HTTP && e.scheme != HTTPS then Some(BadScheme)
    else if e.bindIP == "" then Some(BindIPRequired)
    else if e.host == "" then Some(HostRequired)
    else if e.port <= 0 || e.port > 65535 then Some(BadPort)
    else if e.path == "" || e.path[0] != '/' then Some(BadPath)
    else None
  }

  function CheckG2SXML(x: G2SXML): Option<Problem> {
    if x.mode != LEGACY_XML && x.mode != XSD_XML then Some(BadXMLMode)
    else if x.namespace == "" then Some(NamespaceRequired)
    else if x.egmLocation == "" then Some(LocationRequired)
    else None
  }

  function CheckOutbound(o: Outbound): Option<Problem> {
    if o.timeoutMS < 0 || o.heartbeatIntervalMS < 0 || o.openRetryIntervalMS < 0 || o.failureThreshold < 0
    then Some(NegativeNumber) else None
  }

  function CheckStorage(s: Storage): Option<Problem> {
    if s.backend == "" || s.backend == "noop" then None
    else if s.backend == "sqlite" then if s.sqlitePath == "" then Some(SQLitePathRequired) else None
    else Some(BadBackend)
  }

  predicate TLSMode(mode: string) {
    mode in {"tls_server_only", "strict_mtls", "mtls_no_revocation", "accept_all_lab"}
  }

  function CheckSecurity(s: Security): Option<Problem> {
    if s.trustMode == PLAINTEXT then None
    else if TLSMode(s.trustMode) then
      if s.certFile == "" || s.keyFile == "" then Some(CertificateRequired)
      else if (s.trustMode == "strict_mtls" || s.trustMode == "mtls_no_revocation") && s.caFile == "" then Some(CARequired)
      else None
    else Some(BadTrustMode)
  }

  function FirstProblem(a: Option<Problem>, b: Option<Problem>): Option<Problem> {
    if a.Some? then a else b
  }

  /** The checks made right after the defaults. */
  function CheckConnection(c: Settings, urlOK: string -> bool): Option<Problem> {
    FirstProblem(CheckEndpoint(c.endpoint),
      FirstProblem(if c.hostURL != "" && !urlOK(c.hostURL) then Some(BadHostURL) else None,
        FirstProblem(CheckG2SXML(c.g2sXML),
          if c.sessionEngine.enabled && c.hostURL == "" then Some(HostURLRequired) else None)))
  }

  /** The checks made at the end. */
  function CheckRest(c: Settings): Option<Problem> {
    FirstProblem(if c.packFile == "" then Some(PackFileRequired) else None,
      FirstProblem(CheckOutbound(c.outbound), FirstProblem(CheckStorage(c.storage), CheckSecurity(c.security))))
  }

  // ----- the validator -----

  /** ValidateConfig from its checks of the endpoints on. */
  function ValidatePrepared(c: Settings, urlOK: string -> bool): (Settings, Option<Problem>) {
    if CheckConnection(c, urlOK).Some? then (c, CheckConnection(c, urlOK))
    else
      var c := ListenDefaults(c);
      if c.loggingDir == "" then (c, Some(LoggingDirRequired))
      else
        var c := c.(controlBind := OrElse(c.controlBind, "127.0.0.1:0"));
        (c, CheckRest(c))
  }

  /** ValidateConfig up to its checks of the endpoints: identities and defaults. */
  function Prepare(c: Settings): (Settings, Option<Problem>) {
    if c.instanceID == "" then (c, Some(InstanceIDRequired))
    else
      var c := DefaultHostID(c);
      if c.egmID == "" then (c, Some(EGMIDRequired)) else (ApplyDefaults(c), None)
  }

  /** ValidateConfig as a function: the settings it leaves behind, and the first problem met. */
  function Validate(c: Settings, urlOK: string -> bool): (Settings, Option<Problem>) {
    var (prepared, problem) := Prepare(c);
    if problem.Some? then (prepared, problem) else ValidatePrepared(prepared, urlOK)
  }

  class RuntimeConfig {
    const urlOK: string -> bool
    var instanceID: string
    var hostID: string
    var egmID: string
    var endpoint: Endpoint
    var hostURL: string
    var g2sXML: G2SXML
    var sessionEngine: SessionEngine
    var listen: Listen
    var security: Security
    var loggingDir: string
    var storage: Storage
    var controlBind: string
    var outbound: Outbound
    var packFile: string
    var notes: map<string, string>

    function View(): Settings
      reads this
    {
      Settings(instanceID, hostID, egmID, endpoint, hostURL, g2sXML, sessionEngine, listen, security, loggingDir, storage,
               controlBind, outbound, packFile, notes)
    }

    constructor (c: Settings, urlOK: string -> bool)
      ensures View() == c && this.urlOK == urlOK
    {
      this.urlOK := urlOK;
      instanceID, hostID, egmID, endpoint, hostURL := c.instanceID, c.hostID, c.egmID, c.endpoint, c.hostURL;
      g2sXML, sessionEngine, listen, security := c.g2sXML, c.sessionEngine, c.listen, c.security;
      loggingDir, storage, controlBind, outbound := c.loggingDir, c.storage, c.controlBind, c.outbound;
      packFile, notes := c.packFile, c.notes;
    }

    method ApplyEndpointDefaults()
      modifies this`endpoint, this`outbound
      ensures endpoint == DefaultEndpoint(old(endpoint), listen, security.trustMode)
      ensures outbound == old(outbound).(defaultTargetURL := OrElse(old(outbound).defaultTargetURL, hostURL))
    {
      if endpoint.scheme == "" {
        if security.trustMode == PLAINTEXT || security.trustMode == "" {
          endpoint := endpoint.(scheme := HTTP);
        } else {
          endpoint := endpoint.(scheme := HTTPS);
        }
      }
      if endpoint.bindIP == "" {
        endpoint := endpoint.(bindIP := OrElse(listen.host, LOOPBACK));
      }
      assert endpoint.scheme == DefaultEndpoint(old(endpoint), listen, security.trustMode).scheme;
      if endpoint.host == "" {
        endpoint := endpoint.(host := endpoint.bindIP);
      }
      if endpoint.port == 0 {
        endpoint := endpoint.(port := listen.port);
      }
      if endpoint.path == "" {
        endpoint := endpoint.(path := "/g2s");
      }
      if outbound.defaultTargetURL == "" && hostURL != "" {
        outbound := outbound.(defaultTargetURL := hostURL);
      }
    }

    method ApplyG2SXMLDefaults()
      modifies this`g2sXML
      ensures g2sXML == DefaultG2SXML(old(g2sXML), endpoint)
    {
      if g2sXML.mode == "" { g2sXML := g2sXML.(mode := LEGACY_XML); }
      if g2sXML.namespace == "" { g2sXML := g2sXML.(namespace := NAMESPACE); }
      if g2sXML.egmLocation == "" { g2sXML := g2sXML.(egmLocation := endpoint.host + ":" + Itoa(endpoint.port)); }
    }

    method ApplySessionEngineDefaults()
      modifies this`sessionEngine
      ensures sessionEngine == DefaultEngine(old(sessionEngine))
    {
      if sessionEngine.commsOnlineTimeoutMS == 0 { sessionEngine := sessionEngine.(commsOnlineTimeoutMS := 3000); }
      if sessionEngine.keepAliveIntervalMS == 0 { sessionEngine := sessionEngine.(keepAliveIntervalMS := 5000); }
      if sessionEngine.reconnectIntervalMS == 0 { sessionEngine := sessionEngine.(reconnectIntervalMS := 5000); }
    }

    /** ValidateConfig from its checks of the endpoints on. */
    method CheckPrepared() returns (err: Option<Problem>)
      modifies this`listen, this`controlBind
      ensures (View(), err) == ValidatePrepared(old(View()), urlOK)
    {
      err := CheckConnection(View(), urlOK);
      if err.Some? { return; }
      if listen.host == "" { listen := listen.(host := endpoint.bindIP); }
      if listen.port == 0 { listen := listen.(port := endpoint.port); }
      assert View() == ListenDefaults(old(View()));
      if loggingDir == "" { return Some(LoggingDirRequired); }
      if controlBind == "" { controlBind := "127.0.0.1:0"; }
      err := CheckRest(View());
    }

    method PrepareInPlace() returns (err: Option<Problem>)
      modifies this`hostID, this`endpoint, this`outbound, this`g2sXML, this`sessionEngine
      ensures err == Prepare(old(View())).1
      ensures var p := Prepare(old(View())).0;
        (hostID == p.hostID && endpoint == p.endpoint && outbound == p.outbound && g2sXML == p.g2sXML
         && sessionEngine == p.sessionEngine)
    {
      if instanceID == "" { return Some(InstanceIDRequired); }
      if hostID == "" { hostID := FallbackHostID(notes); }
      ghost var named := DefaultHostID(old(View()));
      if egmID == "" { return Some(EGMIDRequired); }
      ApplyEndpointDefaults();
      ApplyG2SXMLDefaults();
      ApplySessionEngineDefaults();
      ghost var prepared := ApplyDefaults(named);
      assert endpoint == prepared.endpoint && g2sXML == prepared.g2sXML;
      return None;
    }

    /** On failure too, the defaults filled in before the failing check stay. */
    method ValidateConfig() returns (err: Option<Problem>)
      modifies this
      ensures (View(), err) == Validate(old(View()), urlOK)
    {
      err := PrepareInPlace();
      if err.Some? { return; }
      err := CheckPrepared();
    }
  }

  // ----- idempotence -----

  lemma AcceptedParts(c: Settings, urlOK: string -> bool)
    requires Validate(c, urlOK).1.None?
    ensures var prepared := ApplyDefaults(DefaultHostID(c));
            && c.instanceID != "" && c.egmID != "" && c.loggingDir != ""
            && CheckConnection(prepared, urlOK).None?
            && Validate(c, urlOK).0 == ListenDefaults(prepared).(controlBind := OrElse(c.controlBind, "127.0.0.1:0"))
            && CheckRest(Validate(c, urlOK).0).None?
  {
  }

  /** A config that passed keeps every field when validated again, and passes again. */
  lemma ValidateIdempotent(c: Settings, urlOK: string -> bool)
    requires Validate(c, urlOK).1.None?
    ensures Validate(Validate(c, urlOK).0, urlOK) == (Validate(c, urlOK).0, None)
  {
    AcceptedParts(c, urlOK);
    var v := Validate(c, urlOK).0;
    var prepared := ApplyDefaults(DefaultHostID(c));
    assert DefaultHostID(v) == v;
    DefaultsSettled(prepared, v);
    assert ListenDefaults(v) == v;
  }

  lemma DefaultsSettled(prepared: Settings, v: Settings)
    requires CheckEndpoint(prepared.endpoint).None? && CheckG2SXML(prepared.g2sXML).None?
    requires prepared.outbound.defaultTargetURL == OrElse(prepared.outbound.defaultTargetURL, prepared.hostURL)
    requires prepared.sessionEngine == DefaultEngine(prepared.sessionEngine)
    requires v == ListenDefaults(prepared).(controlBind := v.controlBind)
    ensures ApplyDefaults(v) == v
  {
  }

  // ----- acceptance -----

  predicate SchemeOK(s: string) { s == "" || s == "http" || s == "https" }

  predicate PathOK(p: string) { p == "" || p[0] == '/' }

  predicate ModeOK(m: string) { m == "" || m == "lab_legacy_xml" || m == "xsd_g2s_message" }

  predicate OutboundOK(o: Outbound) {
    o.timeoutMS >= 0 && o.heartbeatIntervalMS >= 0 && o.openRetryIntervalMS >= 0 && o.failureThreshold >= 0
  }

  predicate StorageOK(s: Storage) {
    s.backend == "" || s.backend == "noop" || (s.backend == "sqlite" && s.sqlitePath != "")
  }

  /** Plain text needs no files; TLS needs a certificate and a key, and to verify clients an authority as well. */
  predicate SecurityOK(s: Security) {
    || s.trustMode == "plaintext_lab"
    || ((s.trustMode == "tls_server_only" || s.trustMode == "accept_all_lab") && s.certFile != "" && s.keyFile != "")
    || ((s.trustMode == "strict_mtls" || s.trustMode == "mtls_no_revocation")
        && s.certFile != "" && s.keyFile != "" && s.caFile != "")
  }

  /** What a config must satisfy before validation, defaults included, to be accepted. */
  predicate Acceptable(c: Settings, urlOK: string -> bool) {
    && c.instanceID != "" && c.egmID != ""
    && SchemeOK(c.endpoint.scheme) && PathOK(c.endpoint.path) && 1 <= Or(c.endpoint.port, c.listen.port) <= 65535
    && (c.hostURL == "" || urlOK(c.hostURL)) && ModeOK(c.g2sXML.mode) && (c.sessionEngine.enabled ==> c.hostURL != "")
    && c.loggingDir != "" && c.packFile != ""
    && OutboundOK(c.outbound) && StorageOK(c.storage) && SecurityOK(c.security)
  }

  /** The validator accepts exactly the acceptable configs: no default ever rescues or breaks
      one beyond what Acceptable says. */
  lemma ValidateAccepts(c: Settings, urlOK: string -> bool)
    ensures Validate(c, urlOK).1.None? <==> Acceptable(c, urlOK)
  {
    if c.instanceID != "" && c.egmID != "" {
      var p := ApplyDefaults(DefaultHostID(c));
      EndpointAccepts(c.endpoint, c.listen, c.security.trustMode);
      XMLAccepts(c.g2sXML, p.endpoint);
      assert CheckConnection(p, urlOK).None? <==>
        CheckEndpoint(p.endpoint).None? && (c.hostURL == "" || urlOK(c.hostURL)) && CheckG2SXML(p.g2sXML).None?
        && (c.sessionEngine.enabled ==> c.hostURL != "");
    }
  }

  lemma EndpointAccepts(e: Endpoint, listen: Listen, trustMode: string)
    ensures CheckEndpoint(DefaultEndpoint(e, listen, trustMode)).None?
       <==> SchemeOK(e.scheme) && PathOK(e.path) && 1 <= Or(e.port, listen.port) <= 65535
  {
  }

  lemma XMLAccepts(x: G2SXML, e: Endpoint)
    ensures CheckG2SXML(DefaultG2SXML(x, e)).None? <==> ModeOK(x.mode)
  {
    assert e.host + ":" + Itoa(e.port) != "";
  }

  // ----- what an accepted config ends up with -----

  predicate Kept(given: string, final: string) { given != "" ==> final == given }

  predicate KeptNumber(given: int, final: int) { given != 0 ==> final == given }

  /** Settings that were given are kept; the listener and the endpoint default to each other, host and port. */
  lemma AcceptedKeepsGiven(c: Settings, urlOK: string -> bool)
    requires Validate(c, urlOK).1.None?
    ensures var v := Validate(c, urlOK).0;
            && Kept(c.hostID, v.hostID) && Kept(c.controlBind, v.controlBind)
            && Kept(c.endpoint.scheme, v.endpoint.scheme) && Kept(c.endpoint.bindIP, v.endpoint.bindIP)
            && Kept(c.endpoint.host, v.endpoint.host) && Kept(c.endpoint.path, v.endpoint.path)
            && Kept(c.listen.host, v.listen.host) && Kept(c.outbound.defaultTargetURL, v.outbound.defaultTargetURL)
            && KeptNumber(c.endpoint.port, v.endpoint.port) && KeptNumber(c.listen.port, v.listen.port)
            && (c.endpoint.port == 0 ==> v.endpoint.port == c.listen.port)
            && (c.listen.port == 0 ==> v.listen.port == c.endpoint.port)
            && (c.endpoint.bindIP == "" && c.listen.host != "" ==> v.endpoint.bindIP == c.listen.host)
            && (c.listen.host == "" ==> v.listen.host == v.endpoint.bindIP)
  {
    AcceptedParts(c, urlOK);
  }

  /** The constants that fill in what was not given. */
  lemma AcceptedFills(c: Settings, urlOK: string -> bool)
    requires Validate(c, urlOK).1.None?
    ensures var v := Validate(c, urlOK).0;
            && (c.endpoint.scheme == "" ==> v.endpoint.scheme == if c.security.trustMode == PLAINTEXT then HTTP else HTTPS)
            && (c.endpoint.bindIP == "" && c.listen.host == "" ==> v.endpoint.bindIP == LOOPBACK)
            && (c.endpoint.host == "" ==> v.endpoint.host == v.endpoint.bindIP)
            && (c.g2sXML.egmLocation == "" ==> v.g2sXML.egmLocation == v.endpoint.host + ":" + Itoa(v.endpoint.port))
            && (c.sessionEngine.commsOnlineTimeoutMS == 0 ==> v.sessionEngine.commsOnlineTimeoutMS == 3000)
            && (c.sessionEngine.keepAliveIntervalMS == 0 ==> v.sessionEngine.keepAliveIntervalMS == 5000)
            && (c.sessionEngine.reconnectIntervalMS == 0 ==> v.sessionEngine.reconnectIntervalMS == 5000)
            && (c.controlBind == "" ==> v.controlBind == "127.0.0.1:0")
  {
    AcceptedParts(c, urlOK);
  }

  // ----- which problem is reported, and what is filled in by then -----

  /** The order in which problems are looked for. */
  function Rank(p: Problem): nat {
    match p
    case InstanceIDRequired => 0
    case EGMIDRequired => 1
    case BadScheme => 2
    case BindIPRequired => 3
    case HostRequired => 4
    case BadPort => 5
    case BadPath => 6
    case BadHostURL => 7
    case BadXMLMode => 8
    case NamespaceRequired => 9
    case LocationRequired => 10
    case HostURLRequired => 11
    case LoggingDirRequired => 12
    case PackFileRequired => 13
    case NegativeNumber => 14
    case SQLitePathRequired => 15
    case BadBackend => 16
    case CertificateRequired => 17
    case CARequired => 18
    case BadTrustMode => 19
  }

  predicate PlainOrTLS(mode: string) {
    mode == "plaintext_lab" || mode == "tls_server_only" || mode == "accept_all_lab" || VerifiesClients(mode)
  }

  predicate VerifiesClients(mode: string) {
    mode == "strict_mtls" || mode == "mtls_no_revocation"
  }

  /** What is wrong with a config as given. What has a default is never missing. */
  predicate Wrong(c: Settings, urlOK: string -> bool, p: Problem) {
    match p
    case InstanceIDRequired => c.instanceID == ""
    case EGMIDRequired => c.egmID == ""
    case BadScheme => !SchemeOK(c.endpoint.scheme)
    case BindIPRequired => false
    case HostRequired => false
    case BadPort => !(1 <= (if c.endpoint.port != 0 then c.endpoint.port else c.listen.port) <= 65535)
    case BadPath => c.endpoint.path != "" && c.endpoint.path[0] != '/'
    case BadHostURL => c.hostURL != "" && !urlOK(c.hostURL)
    case BadXMLMode => !ModeOK(c.g2sXML.mode)
    case NamespaceRequired => false
    case LocationRequired => false
    case HostURLRequired => c.sessionEngine.enabled && c.hostURL == ""
    case LoggingDirRequired => c.loggingDir == ""
    case PackFileRequired => c.packFile == ""
    case NegativeNumber => !OutboundOK(c.outbound)
    case SQLitePathRequired => c.storage.backend == "sqlite" && c.storage.sqlitePath == ""
    case BadBackend => c.storage.backend !in {"", "noop", "sqlite"}
    case CertificateRequired =>
      PlainOrTLS(c.security.trustMode) && c.security.trustMode != "plaintext_lab"
      && (c.security.certFile == "" || c.security.keyFile == "")
    case CARequired => VerifiesClients(c.security.trustMode) && c.security.caFile == ""
    case BadTrustMode => !PlainOrTLS(c.security.trustMode)
  }

  /** Nothing is wrong that is looked for before the given rank. */
  predicate FineUpTo(c: Settings, urlOK: string -> bool, rank: nat) {
    forall p: Problem :: Rank(p) < rank ==> !Wrong(c, urlOK, p)
  }

  /** The problem reported is the first one there is, in the order they are looked for; none exactly when there is none. */
  lemma ReportsFirst(c: Settings, urlOK: string -> bool)
    ensures var problem := Validate(c, urlOK).1;
            && (problem.Some? ==> Wrong(c, urlOK, problem.value) && FineUpTo(c, urlOK, Rank(problem.value)))
            && (problem.None? ==> FineUpTo(c, urlOK, 20))
  {
    if c.instanceID != "" && c.egmID != "" {
      var p := ApplyDefaults(DefaultHostID(c));
      ConnectionReports(c, urlOK);
      if CheckConnection(p, urlOK).None? {
        RestReports(c, urlOK);
        assert forall l: Listen, bind: string :: CheckRest(p.(listen := l, controlBind := bind)) == CheckRest(c);
        hide CheckRest;
      }
      hide CheckConnection, ApplyDefaults;
      hide Wrong;
    } else {
      hide ValidatePrepared;
    }
  }

  lemma EndpointReports(c: Settings, urlOK: string -> bool)
    requires c.instanceID != "" && c.egmID != ""
    ensures var problem := CheckEndpoint(DefaultEndpoint(c.endpoint, c.listen, c.security.trustMode));
            && (problem.Some? ==> Wrong(c, urlOK, problem.value) && FineUpTo(c, urlOK, Rank(problem.value)))
            && (problem.None? ==> FineUpTo(c, urlOK, 7))
  {
  }

  lemma ConnectionReports(c: Settings, urlOK: string -> bool)
    requires c.instanceID != "" && c.egmID != ""
    ensures var problem := CheckConnection(ApplyDefaults(DefaultHostID(c)), urlOK);
            && (problem.Some? ==> Wrong(c, urlOK, problem.value) && FineUpTo(c, urlOK, Rank(problem.value)))
            && (problem.None? ==> FineUpTo(c, urlOK, 12))
  {
    EndpointReports(c, urlOK);
    var p := ApplyDefaults(DefaultHostID(c));
    XMLAccepts(c.g2sXML, p.endpoint);
    assert CheckG2SXML(p.g2sXML).Some? ==> CheckG2SXML(p.g2sXML) == Some(BadXMLMode);
    hide CheckEndpoint, CheckG2SXML, ApplyDefaults;
  }

  lemma RestReports(c: Settings, urlOK: string -> bool)
    requires FineUpTo(c, urlOK, 12)
    ensures c.loggingDir != "" ==>
      var problem := CheckRest(c);
      (problem.Some? ==> Wrong(c, urlOK, problem.value) && FineUpTo(c, urlOK, Rank(problem.value)))
      && (problem.None? ==> FineUpTo(c, urlOK, 20))
  {
  }

  /** How far validation came: the rank of the problem it stopped at, or 20. */
  function Stage(problem: Option<Problem>): nat {
    if problem.Some? then Rank(problem.value) else 20
  }

  /** The given text, or the other once it is filled in. */
  predicate FilledText(final: string, given: string, filled: bool, fallback: string) {
    final == if given != "" || !filled then given else fallback
  }

  predicate FilledNumber(final: int, given: int, filled: bool, fallback: int) {
    final == if given != 0 || !filled then given else fallback
  }

  /** Every field validation leaves behind, whether it accepts or stops at a problem: the host id is filled in first, what
      the connection needs once both ids are there, the listener after the connection's checks, the control address after
      the log directory's. */
  lemma FilledSoFar(c: Settings, urlOK: string -> bool)
    ensures var v, stage := Validate(c, urlOK).0, Stage(Validate(c, urlOK).1);
            var defaulted := stage > 1;
            && FilledText(v.hostID, c.hostID, stage > 0,
                    if "host_id" in c.notes && c.notes["host_id"] != "" then c.notes["host_id"] else "HOST-001")
            && FilledText(v.endpoint.scheme, c.endpoint.scheme, defaulted,
                    if c.security.trustMode == "plaintext_lab" || c.security.trustMode == "" then "http" else "https")
            && FilledText(v.endpoint.bindIP, c.endpoint.bindIP, defaulted, if c.listen.host != "" then c.listen.host else "127.0.0.1")
            && FilledText(v.endpoint.host, c.endpoint.host, defaulted, v.endpoint.bindIP)
            && FilledNumber(v.endpoint.port, c.endpoint.port, defaulted, c.listen.port)
            && FilledText(v.endpoint.path, c.endpoint.path, defaulted, "/g2s")
            && FilledText(v.g2sXML.mode, c.g2sXML.mode, defaulted, "lab_legacy_xml")
            && FilledText(v.g2sXML.namespace, c.g2sXML.namespace, defaulted, "http://www.gamingstandards.com/g2s/schemas/v1.0.3")
            && FilledText(v.g2sXML.egmLocation, c.g2sXML.egmLocation, defaulted, v.endpoint.host + ":" + Itoa(v.endpoint.port))
            && FilledNumber(v.sessionEngine.commsOnlineTimeoutMS, c.sessionEngine.commsOnlineTimeoutMS, defaulted, 3000)
            && FilledNumber(v.sessionEngine.keepAliveIntervalMS, c.sessionEngine.keepAliveIntervalMS, defaulted, 5000)
            && FilledNumber(v.sessionEngine.reconnectIntervalMS, c.sessionEngine.reconnectIntervalMS, defaulted, 5000)
            && FilledText(v.outbound.defaultTargetURL, c.outbound.defaultTargetURL, defaulted, c.hostURL)
            && FilledText(v.listen.host, c.listen.host, stage > 11, v.endpoint.bindIP)
            && FilledNumber(v.listen.port, c.listen.port, stage > 11, v.endpoint.port)
            && FilledText(v.controlBind, c.controlBind, stage > 12, "127.0.0.1:0")
  {
    StagesOf(c, urlOK);
    hide CheckConnection, CheckRest, Stage, Itoa;
  }

  /** And nothing else changes. */
  lemma NothingElseFilled(c: Settings, urlOK: string -> bool)
    ensures var v := Validate(c, urlOK).0;
            && v.instanceID == c.instanceID && v.egmID == c.egmID && v.hostURL == c.hostURL && v.security == c.security
            && v.loggingDir == c.loggingDir && v.storage == c.storage && v.packFile == c.packFile && v.notes == c.notes
            && v.sessionEngine.enabled == c.sessionEngine.enabled && v.sessionEngine.autoStart == c.sessionEngine.autoStart
            && v.outbound.(defaultTargetURL := c.outbound.defaultTargetURL) == c.outbound
  {
    hide CheckConnection, CheckRest;
  }

  /** The checks of each part report problems of its own ranks only. */
  lemma StagesOf(c: Settings, urlOK: string -> bool)
    ensures c.instanceID != "" && c.egmID != "" ==>
      var p := ApplyDefaults(DefaultHostID(c));
      (CheckConnection(p, urlOK).Some? ==> 1 < Stage(CheckConnection(p, urlOK)) <= 11)
    ensures forall d: Settings :: Stage(CheckRest(d)) > 12
    ensures Stage(Some(InstanceIDRequired)) == 0 && Stage(Some(EGMIDRequired)) == 1 && Stage(Some(LoggingDirRequired)) == 12
  {
    hide ApplyDefaults;
  }
}
