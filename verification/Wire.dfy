/** Commands reach the emulated machine two ways: over the wire from a host, or injected
    through the control interface. Both handlers, and what runs of them do to the state. */
module Wire {
  import opened Text
  import opened Template

  /** A JSON value of a pack's set_state: only strings have an effect. */
  datatype Json = Str(value: string) | Other

  datatype Variant = Variant(template: string, httpStatus: int, setState: map<string, Json>)

  datatype Pack = Pack(namespaces: map<string, string>, registrationMode: string, operations: map<string, seq<Variant>>)

  datatype Host = Host(hostID: string, enabled: bool)

  datatype Command = Command(operation: string, hostID: string, sessionID: string, egmID: string)

  /** The readings of the clock while one command is handled. */
  datatype Clock = Clock(commandAt: int, builtInAt: int, setStateAt: int)

  /** The six settings commands exist to change. */
  datatype Core = Core(audio: string, hold: string, lock: string, machine: string, session: string, heartbeat: string)

  datatype Identity = Identity(instanceID: string, egmID: string, trustMode: string)

  /** Who may command the machine. */
  datatype Access = Access(registration: string, registered: seq<Host>, allowed: seq<string>)

  datatype Last = Last(messageType: string, commandType: string, commandAt: int, commandSource: string, sessionID: string,
                       hostID: string)

  datatype Transition = Transition(at: int, reason: string)

  /** The part of the runtime state the two handlers read or write. */
  datatype State = State(
    identity: Identity, access: Access, core: Core, connection: string, last: Last, ackStatus: string,
    transition: Transition, lastError: string)

  // ----- who is allowed -----

  /** The first registration of the host decides; hosts on the plain list count only when no host is registered. */
  ghost predicate HostAllowed(mode: string, a: Access, hostID: string) {
    || mode == "open" || a.registration == "open"
    || (a.registered != [] && exists i :: 0 <= i < |a.registered| && FirstRegistration(a.registered, i, hostID)
                                          && a.registered[i].enabled)
    || (a.registered == [] && hostID in a.allowed)
  }

  ghost predicate FirstRegistration(hosts: seq<Host>, i: nat, hostID: string)
    requires i < |hosts|
  {
    hosts[i].hostID == hostID && forall k :: 0 <= k < i ==> hosts[k].hostID != hostID
  }

  method HostAllowedLocked(mode: string, a: Access, hostID: string) returns (ok: bool)
    ensures ok <==> HostAllowed(mode, a, hostID)
  {
    if mode == "open" || a.registration == "open" { return true; }
    if |a.registered| > 0 {
      for i := 0 to |a.registered|
        invariant forall k :: 0 <= k < i ==> a.registered[k].hostID != hostID
      {
        if a.registered[i].hostID == hostID {
          assert FirstRegistration(a.registered, i, hostID);
          return a.registered[i].enabled;
        }
      }
      return false;
    }
    for i := 0 to |a.allowed|
      invariant forall k :: 0 <= k < i ==> a.allowed[k] != hostID
    {
      if a.allowed[i] == hostID { return true; }
    }
    return false;
  }

  /** Registration open anywhere lets every host in; otherwise the first registration of a host decides for it, and the
      plain list counts exactly when there are no registrations. */
  lemma FirstRegistrationDecides(mode: string, a: Access, hostID: string)
    ensures mode == "open" || a.registration == "open" ==> HostAllowed(mode, a, hostID)
    ensures mode != "open" && a.registration != "open" && a.registered == [] ==>
      (HostAllowed(mode, a, hostID) <==> hostID in a.allowed)
    ensures mode != "open" && a.registration != "open" && a.registered != [] && a.registered[0].hostID == hostID ==>
      (HostAllowed(mode, a, hostID) <==> a.registered[0].enabled)
    ensures mode != "open" && a.registration != "open" && a.registered != [] && a.registered[0].hostID != hostID ==>
      (HostAllowed(mode, a, hostID) <==>
       |a.registered| > 1 && HostAllowed(mode, a.(registered := a.registered[1..]), hostID))
  {
    if a.registered != [] {
      var first, rest := a.registered[0], a.registered[1..];
      assert a.registered == [first] + rest;
      if first.hostID == hostID {
        assert FirstRegistration(a.registered, 0, hostID);
      } else {
        forall i | 0 <= i < |rest|
          ensures FirstRegistration(rest, i, hostID) <==> FirstRegistration(a.registered, i + 1, hostID)
        {
          LaterRegistration(a.registered, i, hostID);
        }
        assert !FirstRegistration(a.registered, 0, hostID);
      }
    }
  }

  lemma LaterRegistration(hosts: seq<Host>, i: nat, hostID: string)
    requires i + 1 < |hosts| && hosts[0].hostID != hostID
    ensures FirstRegistration(hosts[1..], i, hostID) <==> FirstRegistration(hosts, i + 1, hostID)
  {
    var rest := hosts[1..];
    assert forall k :: 0 < k < |hosts| ==> hosts[k] == rest[k - 1];
    assert forall k :: 0 <= k < |rest| ==> rest[k] == hosts[k + 1];
  }

  // ----- state updates -----

  /** The string an update map gives a key, or the value already there. */
  function Updated(updates: map<string, Json>, key: string, current: string): string {
    if key in updates && updates[key].Str? then updates[key].value else current
  }

  function UpdateCore(c: Core, updates: map<string, Json>): Core {
    Core(Updated(updates, "audio_state", c.audio), Updated(updates, "hold_state", c.hold),
         Updated(updates, "lock_state", c.lock), Updated(updates, "machine_state", c.machine),
         Updated(updates, "session_state", c.session), Updated(updates, "heartbeat_state", c.heartbeat))
  }

  /** applyStateUpdatesLocked as a function. */
  function ApplyUpdates(s: State, updates: map<string, Json>, at: int, reason: string): State {
    if updates == map[] then s
    else s.(core := UpdateCore(s.core, updates), connection := Updated(updates, "connection_state", s.connection),
            transition := Transition(at, reason))
  }

  /** What an operation does by itself, before its pack entry has a say. */
  function BuiltIn(operation: string): map<string, Json> {
    if operation == "commsOnLine" then map["session_state" := Str("online"), "heartbeat_state" := Str("healthy")]
    else if operation == "keepAlive" then map["heartbeat_state" := Str("healthy")]
    else map[]
  }

  datatype Path = OverWire | Injected {
    function Connection(): string { if OverWire? then "controller_connected" else "controller_simulated" }

    function Reason(): string { if OverWire? then "wire " else "scenario " }
  }

  /** The state in which an accepted command's response is rendered. */
  function Handled(s: State, v: Variant, cmd: Command, path: Path, now: Clock): State {
    var op := cmd.operation;
    var s := s.(connection := path.Connection(), lastError := "",
                last := Last(op, op, now.commandAt, cmd.hostID, cmd.sessionID, cmd.hostID));
    var s := ApplyUpdates(s, BuiltIn(op), now.builtInAt, path.Reason() + op);
    ApplyUpdates(s, v.setState, now.setStateAt, path.Reason() + op)
  }

  function StatusOf(v: Variant): int {
    if v.httpStatus == 0 then 200 else v.httpStatus
  }

  predicate Defined(pack: Pack, operation: string) {
    operation in pack.operations && pack.operations[operation] != []
  }

  ghost predicate Accepts(pack: Pack, a: Access, cmd: Command, path: Path) {
    (path == OverWire ==> HostAllowed(pack.registrationMode, a, cmd.hostID)) && Defined(pack, cmd.operation)
  }

  function NotRegistered(hostID: string): string {
    "host \"" + hostID + "\" is not registered or enabled"
  }

  function NotDefined(operation: string): string {
    "operation \"" + operation + "\" is not defined"
  }

  /** One command, on either path. */
  ghost function Step(s: State, pack: Pack, cmd: Command, path: Path, now: Clock): State {
    if Accepts(pack, s.access, cmd, path) then
      var v := pack.operations[cmd.operation][0];
      Handled(s, v, cmd, path, now).(ackStatus := "http_" + Itoa(StatusOf(v)))
    else if path == Injected then s
    else if !HostAllowed(pack.registrationMode, s.access, cmd.hostID) then s.(lastError := NotRegistered(cmd.hostID))
    else s.(lastError := NotDefined(cmd.operation))
  }

  /** What templates may quote, the connection state last: it is the one entry the paths set differently. */
  function Quoted(i: Identity, c: Core, l: Last, ackStatus: string): map<string, string> {
    map["instanceId" := i.instanceID, "egmId" := i.egmID, "trustMode" := i.trustMode,
        "sessionState" := c.session, "heartbeatState" := c.heartbeat, "audioState" := c.audio, "holdState" := c.hold,
        "lockState" := c.lock, "machineState" := c.machine, "lastMessageType" := l.messageType,
        "lastCommandType" := l.commandType, "lastCommandSource" := l.commandSource, "lastSessionId" := l.sessionID,
        "lastHostId" := l.hostID, "lastAckStatus" := ackStatus]
  }

  function TemplateState(s: State): map<string, string> {
    Quoted(s.identity, s.core, s.last, s.ackStatus)["connectionState" := s.connection]
  }

  function RequestFields(hostID: string, sessionID: string, egmID: string): map<string, string> {
    map["hostId" := hostID, "sessionId" := sessionID, "egmId" := egmID]
  }

  datatype Response = Forbidden(text: string) | Undefined(text: string) | Responded(status: int, xml: string)

  /** Defaulting of a wire message's identities; an absent field reads as empty. */
  function Field(fields: map<string, string>, name: string): string {
    if name in fields then fields[name] else ""
  }

  function WireCommand(operation: string, fields: map<string, string>, egmID: string, freshSession: string): Command {
    Command(operation,
      OrElse(Field(fields, "hostId"), OrElse(Field(fields, "hostID"), OrElse(Field(fields, "host_id"), "HOST-001"))),
      OrElse(Field(fields, "sessionId"), OrElse(Field(fields, "session_id"), freshSession)),
      OrElse(Field(fields, "egmId"), OrElse(Field(fields, "egmID"), OrElse(Field(fields, "egm_id"), egmID))))
  }

  predicate Given(fields: map<string, string>, name: string) {
    name in fields && fields[name] != ""
  }

  /** The value is that of the first field given, or the fallback when none is. */
  predicate FirstGiven(value: string, fields: map<string, string>, names: seq<string>, fallback: string) {
    if names == [] then value == fallback
    else if Given(fields, names[0]) then value == fields[names[0]]
    else FirstGiven(value, fields, names[1..], fallback)
  }

  lemma FirstOfThree(value: string, fields: map<string, string>, a: string, b: string, c: string, fallback: string)
    ensures FirstGiven(value, fields, [a, b, c], fallback) <==>
      value == if Given(fields, a) then fields[a] else if Given(fields, b) then fields[b]
               else if Given(fields, c) then fields[c] else fallback
  {
    assert [a, b, c][1..] == [b, c] && [b, c][1..] == [c] && [c][1..] == [];
    assert FirstGiven(value, fields, [c], fallback) <==> value == if Given(fields, c) then fields[c] else fallback;
  }

  /** The spellings under which a message may give its identities, in their order. */
  lemma CommandRead(operation: string, fields: map<string, string>, egmID: string, freshSession: string)
    ensures var cmd := WireCommand(operation, fields, egmID, freshSession);
            && cmd.operation == operation
            && FirstGiven(cmd.hostID, fields, ["hostId", "hostID", "host_id"], "HOST-001")
            && FirstGiven(cmd.sessionID, fields, ["sessionId", "session_id"], freshSession)
            && FirstGiven(cmd.egmID, fields, ["egmId", "egmID", "egm_id"], egmID)
  {
    assert ["sessionId", "session_id"][1..] == ["session_id"];
    FirstOfThree(WireCommand(operation, fields, egmID, freshSession).hostID, fields, "hostId", "hostID", "host_id", "HOST-001");
    FirstOfThree(WireCommand(operation, fields, egmID, freshSession).egmID, fields, "egmId", "egmID", "egm_id", egmID);
  }

  class Server {
    const pack: Pack
    const egmID: string
    var state: State

    constructor (pack: Pack, egmID: string, state: State)
      ensures this.pack == pack && this.egmID == egmID && this.state == state
    {
      this.pack, this.egmID, this.state := pack, egmID, state;
    }

    method ApplyStateUpdatesLocked(updates: map<string, Json>, at: int, reason: string)
      modifies this
      ensures state == ApplyUpdates(old(state), updates, at, reason)
    {
      if |updates| == 0 { return; }
      var c := state.core;
      c := c.(audio := Updated(updates, "audio_state", c.audio));
      c := c.(hold := Updated(updates, "hold_state", c.hold));
      c := c.(lock := Updated(updates, "lock_state", c.lock));
      c := c.(machine := Updated(updates, "machine_state", c.machine));
      c := c.(session := Updated(updates, "session_state", c.session));
      c := c.(heartbeat := Updated(updates, "heartbeat_state", c.heartbeat));
      state := state.(core := c, connection := Updated(updates, "connection_state", state.connection));
      state := state.(transition := Transition(at, reason));
    }

    /** handleWire, from the parsed message on. */
    method HandleWire(operation: string, fields: map<string, string>, freshSession: string, now: Clock)
      returns (r: Response)
      modifies this
      ensures var cmd := WireCommand(operation, fields, egmID, freshSession);
              state == Step(old(state), pack, cmd, OverWire, now)
      ensures var cmd := WireCommand(operation, fields, egmID, freshSession);
              Answers(r, old(state), cmd, OverWire, now)
      ensures AnswersFrom(r, state, WireCommand(operation, fields, egmID, freshSession), old(state).ackStatus)
      ensures var hostID := WireCommand(operation, fields, egmID, freshSession).hostID;
              r.Forbidden? <==> !HostAllowed(pack.registrationMode, old(state).access, hostID)
      ensures r.Responded? ==> operation in pack.operations && pack.operations[operation] != []
      ensures r.Undefined? ==> operation in pack.operations ==> pack.operations[operation] == []
      ensures !r.Responded? ==> r.text == state.lastError
    {
      var cmd := WireCommand(operation, fields, egmID, freshSession);
      var allowed := HostAllowedLocked(pack.registrationMode, state.access, cmd.hostID);
      if !allowed {
        state := state.(lastError := NotRegistered(cmd.hostID));
        return Forbidden(state.lastError);
      }
      if operation !in pack.operations || |pack.operations[operation]| == 0 {
        state := state.(lastError := NotDefined(operation));
        return Undefined(state.lastError);
      }
      r := Execute(cmd, OverWire, now);
      AnsweredFrom(r, old(state), cmd, OverWire, now);
    }

    /** processSimulatedInbound: no host is turned away, and a failure leaves no trace. */
    method ProcessSimulatedInbound(operation: string, hostID: string, sessionID: string, now: Clock)
      returns (r: Response)
      modifies this
      ensures state == Step(old(state), pack, Command(operation, hostID, sessionID, egmID), Injected, now)
      ensures Answers(r, old(state), Command(operation, hostID, sessionID, egmID), Injected, now)
      ensures AnswersFrom(r, state, Command(operation, hostID, sessionID, egmID), old(state).ackStatus)
      ensures r.Responded? <==> operation in pack.operations && pack.operations[operation] != []
      ensures !r.Responded? ==> r == Undefined("operation \"" + operation + "\" is not defined") && state == old(state)
    {
      if operation !in pack.operations || |pack.operations[operation]| == 0 {
        return Undefined(NotDefined(operation));
      }
      r := Execute(Command(operation, hostID, sessionID, egmID), Injected, now);
      AnsweredFrom(r, old(state), Command(operation, hostID, sessionID, egmID), Injected, now);
    }

    /** The statements the two handlers have in common. */
    method Execute(cmd: Command, path: Path, now: Clock) returns (r: Response)
      requires Accepts(pack, state.access, cmd, path)
      modifies this
      ensures state == Step(old(state), pack, cmd, path, now)
      ensures Answers(r, old(state), cmd, path, now)
    {
      var v := pack.operations[cmd.operation][0];
      state := state.(connection := path.Connection());
      state := state.(last := Last(cmd.operation, cmd.operation, now.commandAt, cmd.hostID, cmd.sessionID, cmd.hostID));
      state := state.(lastError := "");
      ApplyStateUpdatesLocked(BuiltIn(cmd.operation), now.builtInAt, path.Reason() + cmd.operation);
      if |v.setState| > 0 {
        ApplyStateUpdatesLocked(v.setState, now.setStateAt, path.Reason() + cmd.operation);
      }
      assert state == Handled(old(state), v, cmd, path, now);
      var xml := RenderTemplate(v.template, pack.namespaces, RequestFields(cmd.hostID, cmd.sessionID, cmd.egmID),
                                TemplateState(state));
      state := state.(ackStatus := "http_" + Itoa(StatusOf(v)));
      r := Responded(StatusOf(v), xml);
    }

    /** The response to a command: rendered after the updates, but before the new status is recorded. */
    ghost predicate Answers(r: Response, before: State, cmd: Command, path: Path, now: Clock) {
      if Accepts(pack, before.access, cmd, path) then
        var v := pack.operations[cmd.operation][0];
        && r.Responded? && r.status == StatusOf(v)
        && Renders(v.template, pack.namespaces, RequestFields(cmd.hostID, cmd.sessionID, cmd.egmID),
                   TemplateState(Handled(before, v, cmd, path, now)), r.xml)
      else if path == OverWire && !HostAllowed(pack.registrationMode, before.access, cmd.hostID) then
        r == Forbidden(NotRegistered(cmd.hostID))
      else r == Undefined(NotDefined(cmd.operation))
    }

    /** A response, in terms of the state left behind: rendered from that state's own fields and the command's, but
        with the status recorded before; its status is the one recorded now. */
    ghost predicate AnswersFrom(r: Response, after: State, cmd: Command, priorStatus: string) {
      r.Responded? ==>
        && cmd.operation in pack.operations && pack.operations[cmd.operation] != []
        && Renders(pack.operations[cmd.operation][0].template, pack.namespaces,
                   map["hostId" := cmd.hostID, "sessionId" := cmd.sessionID, "egmId" := cmd.egmID],
                   TemplateState(after.(ackStatus := priorStatus)), r.xml)
        && after.ackStatus == "http_" + Itoa(r.status)
    }

    lemma AnsweredFrom(r: Response, before: State, cmd: Command, path: Path, now: Clock)
      requires Answers(r, before, cmd, path, now)
      ensures AnswersFrom(r, Step(before, pack, cmd, path, now), cmd, before.ackStatus)
    {
      hide Renders, TemplateState, HostAllowed, BuiltIn, UpdateCore, Itoa;
      if r.Responded? {
        var handled := Handled(before, pack.operations[cmd.operation][0], cmd, path, now);
        assert handled.ackStatus == before.ackStatus;
        assert Step(before, pack, cmd, path, now).(ackStatus := before.ackStatus) == handled;
      }
    }
  }

  // ----- rejected commands -----

  /** No command changes who is allowed. */
  lemma AccessUnchanged(s: State, pack: Pack, cmd: Command, path: Path, now: Clock)
    ensures Step(s, pack, cmd, path, now).access == s.access && Step(s, pack, cmd, path, now).identity == s.identity
  {
  }

  /** A wire message that is not accepted changes the last error and nothing else; an injection, nothing at all.
      An accepted command clears the error and leaves its own trace. */
  lemma RejectedLeavesOnlyError(s: State, pack: Pack, cmd: Command, path: Path, now: Clock)
    ensures !Accepts(pack, s.access, cmd, path) ==>
      var after := Step(s, pack, cmd, path, now);
      (after == s.(lastError := after.lastError) && (path == Injected ==> after == s))
    ensures Accepts(pack, s.access, cmd, path) ==>
      var after := Step(s, pack, cmd, path, now);
      (after.lastError == "" && after.last.hostID == cmd.hostID && after.last.commandType == cmd.operation)
  {
  }

  // ----- runs -----

  datatype Event = Event(cmd: Command, path: Path, now: Clock)

  ghost function Run(s: State, pack: Pack, events: seq<Event>): State {
    if events == [] then s
    else var e := events[|events| - 1]; Step(Run(s, pack, events[..|events| - 1]), pack, e.cmd, e.path, e.now)
  }

  datatype Setting = Audio | Hold | Lock | MachineState | Session | Heartbeat {
    function Of(c: Core): string {
      match this
      case Audio => c.audio
      case Hold => c.hold
      case Lock => c.lock
      case MachineState => c.machine
      case Session => c.session
      case Heartbeat => c.heartbeat
    }

    function Key(): string {
      match this
      case Audio => "audio_state"
      case Hold => "hold_state"
      case Lock => "lock_state"
      case MachineState => "machine_state"
      case Session => "session_state"
      case Heartbeat => "heartbeat_state"
    }

    function Quote(): string {
      match this
      case Audio => "audioState"
      case Hold => "holdState"
      case Lock => "lockState"
      case MachineState => "machineState"
      case Session => "sessionState"
      case Heartbeat => "heartbeatState"
    }
  }

  /** The value an accepted command writes to a setting: its pack entry's, else the built-in one, else none. */
  function WrittenBy(v: Variant, operation: string, f: Setting): Option<string> {
    if f.Key() in v.setState && v.setState[f.Key()].Str? then Some(v.setState[f.Key()].value)
    else if operation == "commsOnLine" && f == Session then Some("online")
    else if (operation == "commsOnLine" || operation == "keepAlive") && f == Heartbeat then Some("healthy")
    else None
  }

  /** The last value written to a setting by the accepted commands of a run, read from its end. */
  ghost function LastWritten(pack: Pack, a: Access, events: seq<Event>, f: Setting): Option<string> {
    if events == [] then None
    else
      var e := events[|events| - 1];
      var w := if Accepts(pack, a, e.cmd, e.path)
               then WrittenBy(pack.operations[e.cmd.operation][0], e.cmd.operation, f) else None;
      if w.Some? then w else LastWritten(pack, a, events[..|events| - 1], f)
  }

  /** All a template can quote of the state, each entry under its name. */
  lemma StateQuoted(s: State)
    ensures TemplateState(s) ==
      map["instanceId" := s.identity.instanceID, "egmId" := s.identity.egmID, "trustMode" := s.identity.trustMode,
          "connectionState" := s.connection, "sessionState" := s.core.session, "heartbeatState" := s.core.heartbeat,
          "audioState" := s.core.audio, "holdState" := s.core.hold, "lockState" := s.core.lock,
          "machineState" := s.core.machine, "lastMessageType" := s.last.messageType,
          "lastCommandType" := s.last.commandType, "lastCommandSource" := s.last.commandSource,
          "lastSessionId" := s.last.sessionID, "lastHostId" := s.last.hostID, "lastAckStatus" := s.ackStatus]
  {
    assert "connectionState"[0] == 'c';
  }

  /** A template quotes each setting under its own name. */
  lemma SettingsQuoted(s: State, f: Setting)
    ensures f.Quote() in TemplateState(s) && TemplateState(s)[f.Quote()] == f.Of(s.core)
  {
  }

  lemma UpdatesOne(c: Core, updates: map<string, Json>, f: Setting)
    ensures f.Of(UpdateCore(c, updates)) == Updated(updates, f.Key(), f.Of(c))
  {
  }

  lemma EmptyUpdates(c: Core)
    ensures UpdateCore(c, map[]) == c
  {
  }

  /** The core after an accepted command, in one step: built-in effect first, pack entry over it. */
  lemma HandledCore(s: State, v: Variant, cmd: Command, path: Path, now: Clock)
    ensures Handled(s, v, cmd, path, now).core == UpdateCore(UpdateCore(s.core, BuiltIn(cmd.operation)), v.setState)
  {
    EmptyUpdates(s.core);
    EmptyUpdates(UpdateCore(s.core, BuiltIn(cmd.operation)));
  }

  lemma BuiltInWrites(operation: string, f: Setting, current: string)
    ensures Updated(BuiltIn(operation), f.Key(), current) ==
      if operation == "commsOnLine" && f == Session then "online"
      else if (operation == "commsOnLine" || operation == "keepAlive") && f == Heartbeat then "healthy"
      else current
  {
    KeysDiffer(f);
  }

  lemma KeysDiffer(f: Setting)
    ensures f.Key() == "session_state" <==> f == Session
    ensures f.Key() == "heartbeat_state" <==> f == Heartbeat
  {
    assert f.Key()[0] == 's' <==> f == Session;
    assert f.Key()[0] == 'h' && f.Key()[1] == 'e' <==> f == Heartbeat;
  }

  lemma StepWrites(s: State, pack: Pack, cmd: Command, path: Path, now: Clock, f: Setting)
    requires Accepts(pack, s.access, cmd, path)
    ensures var w := WrittenBy(pack.operations[cmd.operation][0], cmd.operation, f);
            f.Of(Step(s, pack, cmd, path, now).core) == if w.Some? then w.value else f.Of(s.core)
  {
    var v := pack.operations[cmd.operation][0];
    HandledCore(s, v, cmd, path, now);
    UpdatesOne(s.core, BuiltIn(cmd.operation), f);
    UpdatesOne(UpdateCore(s.core, BuiltIn(cmd.operation)), v.setState, f);
    BuiltInWrites(cmd.operation, f, f.Of(s.core));
  }

  // ----- what one command leaves -----

  /** The string a pack entry sets a key to, if it does. */
  function SetTo(v: Variant, key: string, otherwise: string): string {
    if key in v.setState && v.setState[key] != Other then v.setState[key].value else otherwise
  }

  lemma SettingLeft(s: State, pack: Pack, cmd: Command, path: Path, now: Clock, f: Setting)
    requires Accepts(pack, s.access, cmd, path)
    ensures var v, op := pack.operations[cmd.operation][0], cmd.operation;
            f.Of(Step(s, pack, cmd, path, now).core) ==
              SetTo(v, f.Key(),
                    if op == "commsOnLine" && f == Session then "online"
                    else if (op == "commsOnLine" || op == "keepAlive") && f == Heartbeat then "healthy" else f.Of(s.core))
  {
    StepWrites(s, pack, cmd, path, now, f);
    hide Step, Accepts, Setting.Key, Setting.Of;
  }

  /** The settings an accepted command leaves: those of its pack entry, over those of its operation. */
  lemma AcceptedSettings(s: State, pack: Pack, cmd: Command, path: Path, now: Clock)
    requires Accepts(pack, s.access, cmd, path)
    ensures var v, op, after := pack.operations[cmd.operation][0], cmd.operation, Step(s, pack, cmd, path, now).core;
            && after.audio == SetTo(v, "audio_state", s.core.audio)
            && after.hold == SetTo(v, "hold_state", s.core.hold)
            && after.lock == SetTo(v, "lock_state", s.core.lock)
            && after.machine == SetTo(v, "machine_state", s.core.machine)
            && after.session == SetTo(v, "session_state", if op == "commsOnLine" then "online" else s.core.session)
            && after.heartbeat ==
                 SetTo(v, "heartbeat_state", if op == "commsOnLine" || op == "keepAlive" then "healthy" else s.core.heartbeat)
  {
    SettingLeft(s, pack, cmd, path, now, Audio);
    SettingLeft(s, pack, cmd, path, now, Hold);
    SettingLeft(s, pack, cmd, path, now, Lock);
    SettingLeft(s, pack, cmd, path, now, MachineState);
    SettingLeft(s, pack, cmd, path, now, Session);
    SettingLeft(s, pack, cmd, path, now, Heartbeat);
    hide Step, Accepts, SetTo;
  }

  /** Everything else it leaves: its own trace, the connection of its path unless the entry sets another, the last
      transition, if any, and the status of its response. */
  lemma AcceptedLeaves(s: State, pack: Pack, cmd: Command, path: Path, now: Clock)
    requires Accepts(pack, s.access, cmd, path)
    ensures var v, op, after := pack.operations[cmd.operation][0], cmd.operation, Step(s, pack, cmd, path, now);
            var reason := (if path == OverWire then "wire " else "scenario ") + op;
            && after.connection ==
                 SetTo(v, "connection_state", if path == OverWire then "controller_connected" else "controller_simulated")
            && after.transition == (if v.setState != map[] then Transition(now.setStateAt, reason)
                                    else if op == "commsOnLine" || op == "keepAlive" then Transition(now.builtInAt, reason)
                                    else s.transition)
            && after.last == Last(op, op, now.commandAt, cmd.hostID, cmd.sessionID, cmd.hostID) && after.lastError == ""
            && after.ackStatus == "http_" + Itoa(if v.httpStatus != 0 then v.httpStatus else 200)
            && after.identity == s.identity && after.access == s.access
  {
    BuiltInKeys(cmd.operation);
  }

  lemma BuiltInKeys(operation: string)
    ensures "connection_state" !in BuiltIn(operation)
    ensures BuiltIn(operation) == map[] <==> operation != "commsOnLine" && operation != "keepAlive"
  {
    assert "connection_state"[0] == 'c' && "session_state"[0] == 's' && "heartbeat_state"[0] == 'h';
    assert "session_state" in map["session_state" := Str("online"), "heartbeat_state" := Str("healthy")];
    assert "heartbeat_state" in map["heartbeat_state" := Str("healthy")];
  }

  /** A command over the wire of a host that is not let in, or of an operation without a pack entry, leaves a text
      that says so, the host first; an injected one leaves nothing. */
  lemma RejectedTexts(s: State, pack: Pack, cmd: Command, path: Path, now: Clock)
    requires !Accepts(pack, s.access, cmd, path)
    ensures Step(s, pack, cmd, path, now).lastError ==
      if path == Injected then s.lastError
      else if !HostAllowed(pack.registrationMode, s.access, cmd.hostID)
      then "host \"" + cmd.hostID + "\" is not registered or enabled"
      else "operation \"" + cmd.operation + "\" is not defined"
    ensures path == Injected || HostAllowed(pack.registrationMode, s.access, cmd.hostID) ==>
      (cmd.operation in pack.operations ==> pack.operations[cmd.operation] == [])
  {
  }

  /** After any run, of wire and injected commands in any mixture, every setting holds the last value
      an accepted command wrote to it, and who is allowed is what it was. */
  lemma {:induction false} LastWriteWins(s: State, pack: Pack, events: seq<Event>, f: Setting)
    ensures Run(s, pack, events).access == s.access
    ensures var w := LastWritten(pack, s.access, events, f);
            f.Of(Run(s, pack, events).core) == if w.Some? then w.value else f.Of(s.core)
    decreases |events|
  {
    if events != [] {
      var e, prior := events[|events| - 1], Run(s, pack, events[..|events| - 1]);
      LastWriteWins(s, pack, events[..|events| - 1], f);
      AccessUnchanged(prior, pack, e.cmd, e.path, e.now);
      RejectedLeavesOnlyError(prior, pack, e.cmd, e.path, e.now);
      if Accepts(pack, s.access, e.cmd, e.path) { StepWrites(prior, pack, e.cmd, e.path, e.now, f); }
    }
  }

  /** The same commands, whatever path each takes and whenever. */
  ghost predicate SameCommands(a: seq<Event>, b: seq<Event>) {
    |a| == |b| && forall i :: 0 <= i < |a| ==> a[i].cmd == b[i].cmd
  }

  ghost predicate FromAllowedHosts(mode: string, a: Access, events: seq<Event>) {
    forall e <- events :: HostAllowed(mode, a, e.cmd.hostID)
  }

  lemma {:induction false} PathsWriteAlike(pack: Pack, a: seq<Event>, b: seq<Event>, x: Access, y: Access, f: Setting)
    requires SameCommands(a, b)
    requires FromAllowedHosts(pack.registrationMode, x, a) && FromAllowedHosts(pack.registrationMode, y, b)
    ensures LastWritten(pack, x, a, f) == LastWritten(pack, y, b, f)
    decreases |a|
  {
    if a != [] {
      var n := |a| - 1;
      assert a[n] in a && b[n] in b;
      PathsWriteAlike(pack, a[..n], b[..n], x, y, f);
    }
  }

  /** For commands from allowed hosts the path does not matter: two runs of the same commands from states
      with equal settings end with equal settings, each command over the wire or injected as it likes. */
  lemma PathsAgree(s: State, t: State, pack: Pack, a: seq<Event>, b: seq<Event>)
    requires s.core == t.core && SameCommands(a, b)
    requires FromAllowedHosts(pack.registrationMode, s.access, a) && FromAllowedHosts(pack.registrationMode, t.access, b)
    ensures Run(s, pack, a).core == Run(t, pack, b).core
  {
    forall f: Setting ensures f.Of(Run(s, pack, a).core) == f.Of(Run(t, pack, b).core) {
      LastWriteWins(s, pack, a, f);
      LastWriteWins(t, pack, b, f);
      PathsWriteAlike(pack, a, b, s.access, t.access, f);
    }
    CoreBySettings(Run(s, pack, a).core, Run(t, pack, b).core);
  }

  lemma CoreBySettings(c: Core, d: Core)
    requires forall f: Setting :: f.Of(c) == f.Of(d)
    ensures c == d
  {
    assert Audio.Of(c) == Audio.Of(d) && Hold.Of(c) == Hold.Of(d) && Lock.Of(c) == Lock.Of(d);
    assert MachineState.Of(c) == MachineState.Of(d) && Session.Of(c) == Session.Of(d) && Heartbeat.Of(c) == Heartbeat.Of(d);
  }

  // ----- responses -----

  /** Equal in everything a template can quote, the connection state aside. */
  ghost predicate Alike(s: State, t: State) {
    && s.identity == t.identity && s.core == t.core && s.ackStatus == t.ackStatus
    && s.last.(commandAt := 0) == t.last.(commandAt := 0)
  }

  /** A command handled in two such states, by whichever paths, leaves two such states. */
  lemma HandledAlike(s: State, t: State, v: Variant, e: Event, f: Event)
    requires Alike(s, t) && e.cmd == f.cmd
    ensures Alike(Handled(s, v, e.cmd, e.path, e.now), Handled(t, v, f.cmd, f.path, f.now))
  {
    HandledCore(s, v, e.cmd, e.path, e.now);
    HandledCore(t, v, f.cmd, f.path, f.now);
  }

  lemma StepAlike(s: State, t: State, pack: Pack, e: Event, f: Event)
    requires Alike(s, t) && e.cmd == f.cmd
    requires HostAllowed(pack.registrationMode, s.access, e.cmd.hostID)
    requires HostAllowed(pack.registrationMode, t.access, f.cmd.hostID)
    ensures Alike(Step(s, pack, e.cmd, e.path, e.now), Step(t, pack, f.cmd, f.path, f.now))
  {
    if Defined(pack, e.cmd.operation) { HandledAlike(s, t, pack.operations[e.cmd.operation][0], e, f); }
  }

  lemma {:induction false} RunAlike(s: State, t: State, pack: Pack, a: seq<Event>, b: seq<Event>)
    requires Alike(s, t) && SameCommands(a, b)
    requires FromAllowedHosts(pack.registrationMode, s.access, a) && FromAllowedHosts(pack.registrationMode, t.access, b)
    ensures Alike(Run(s, pack, a), Run(t, pack, b))
    ensures Run(s, pack, a).access == s.access && Run(t, pack, b).access == t.access
    decreases |a|
  {
    if a != [] {
      var n := |a| - 1;
      assert a[n] in a && b[n] in b;
      RunAlike(s, t, pack, a[..n], b[..n]);
      StepAlike(Run(s, pack, a[..n]), Run(t, pack, b[..n]), pack, a[n], b[n]);
      AccessUnchanged(Run(s, pack, a[..n]), pack, a[n].cmd, a[n].path, a[n].now);
      AccessUnchanged(Run(t, pack, b[..n]), pack, b[n].cmd, b[n].path, b[n].now);
    }
  }

  /** The state the last command's response is rendered from, if the command is defined. */
  ghost function Rendered(s: State, pack: Pack, events: seq<Event>): State
    requires events != [] && Defined(pack, events[|events| - 1].cmd.operation)
  {
    var e := events[|events| - 1];
    Handled(Run(s, pack, events[..|events| - 1]), pack.operations[e.cmd.operation][0], e.cmd, e.path, e.now)
  }

  /** Two runs of the same commands of allowed hosts, each command on whichever path and whenever: the last
      response, and so every response, is the same on both for a template that does not quote the connection
      state, whatever namespaces and request fields it quotes besides. */
  lemma ResponsesAgree(s: State, t: State, pack: Pack, a: seq<Event>, b: seq<Event>,
                       ns: map<string, string>, request: map<string, string>, pieces: seq<Piece>)
    requires Alike(s, t) && SameCommands(a, b) && a != [] && Defined(pack, a[|a| - 1].cmd.operation)
    requires FromAllowedHosts(pack.registrationMode, s.access, a) && FromAllowedHosts(pack.registrationMode, t.access, b)
    requires Placeholder("state.connectionState") !in pieces
    ensures Accepts(pack, Run(s, pack, a[..|a| - 1]).access, a[|a| - 1].cmd, a[|a| - 1].path)
    ensures Accepts(pack, Run(t, pack, b[..|b| - 1]).access, b[|b| - 1].cmd, b[|b| - 1].path)
    ensures ShownAll(ns, request, TemplateState(Rendered(s, pack, a)), pieces)
         == ShownAll(ns, request, TemplateState(Rendered(t, pack, b)), pieces)
  {
    var n := |a| - 1;
    assert a[n] in a && b[n] in b;
    RunAlike(s, t, pack, a[..n], b[..n]);
    HandledAlike(Run(s, pack, a[..n]), Run(t, pack, b[..n]), pack.operations[a[n].cmd.operation][0], a[n], b[n]);
    ShownAlike(Rendered(s, pack, a), Rendered(t, pack, b), ns, request, pieces);
  }

  lemma {:induction false} ShownAlike(s: State, t: State, ns: map<string, string>, request: map<string, string>,
                                      pieces: seq<Piece>)
    requires Alike(s, t) && Placeholder("state.connectionState") !in pieces
    ensures ShownAll(ns, request, TemplateState(s), pieces) == ShownAll(ns, request, TemplateState(t), pieces)
    decreases |pieces|
  {
    if pieces != [] {
      ShownAlike(s, t, ns, request, pieces[1..]);
      QuotedSame(s, t);
      QuotedAlike(ns, request, Quoted(s.identity, s.core, s.last, s.ackStatus), s.connection, t.connection, pieces[0]);
    }
  }

  lemma QuotedSame(s: State, t: State)
    requires Alike(s, t)
    ensures Quoted(s.identity, s.core, s.last, s.ackStatus) == Quoted(t.identity, t.core, t.last, t.ackStatus)
  {
  }

  lemma QuotedAlike(ns: map<string, string>, request: map<string, string>, base: map<string, string>, c: string, d: string,
                    p: Piece)
    requires p != Placeholder("state.connectionState")
    ensures Shown(ns, request, base["connectionState" := c], p) == Shown(ns, request, base["connectionState" := d], p)
  {
    assert "state." + "connectionState" == "state.connectionState";
    assert p.Placeholder? && "state." <= p.name ==> p.name == "state." + p.name[6..];
  }
}
