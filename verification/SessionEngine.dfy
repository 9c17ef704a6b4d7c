/** The session engine: the loop that opens a session with the host, runs the start-up
    exchange and then beats until a heartbeat fails. Host replies, clock readings and
    cancellation are decisions made outside; a run is what the engine makes of any list of them. */
module SessionEngine {
  import opened Text
  import opened Envelope
  import opened Renderer

  datatype EngineConfig = EngineConfig(instanceID: string, hostID: string, hostURL: string, acceptWrapped: bool)

  datatype Reply = TransportError | Http(status: int, body: Document, nestedAck: string)

  datatype Failure = NoHostURL | Transport | Status(code: int) | Unparsed(error: ParseError) | WrongAck(actual: string)

  datatype EngineState = EngineState(
    sessionState: string, connectionState: string, heartbeatState: string,
    lastMessageType: string, lastCommandType: string, lastSessionID: string, lastHostID: string,
    lastAckStatus: string, lastError: Option<Failure>)

  /** One completed exchange with the host. */
  datatype Exchange = Exchange(op: Operation, sessionID: string, ok: bool)

  /** What the world answers at one point: is the context done, what does the host reply, what
      does the clock read. Each point looks at the part it needs. */
  datatype Decision = Decision(done: bool, reply: Reply, now: int)

  // ----- acknowledgements -----

  function ExpectedAck(op: Operation): string {
    match op
    case CommsOnLine => "commsOnLineAck"
    case GetDescriptor => "descriptorList"
    case SetKeepAlive => "setKeepAliveAck"
    case KeepAlive => "keepAliveAck"
  }

  function ResolveAck(expected: string, actual: string, nestedAck: string, acceptWrapped: bool): string {
    if actual == expected then actual
    else if acceptWrapped then
      if actual == "g2sResponse" then if nestedAck == expected then expected else expected
      else actual
    else actual
  }

  /** An acknowledgement is accepted when it is the expected one, or any bare or wrapped
      g2sResponse if those are allowed; what a g2sResponse wraps makes no difference. */
  lemma AckAccepted(expected: string, actual: string, nestedAck: string, acceptWrapped: bool)
    ensures ResolveAck(expected, actual, nestedAck, acceptWrapped) == expected
       <==> actual == expected || (acceptWrapped && actual == "g2sResponse")
  {
  }

  /** How one request fares: None means acknowledged. */
  function Outcome(cfg: EngineConfig, op: Operation, reply: Reply): Option<Failure> {
    match reply
    case TransportError => Some(Transport)
    case Http(status, body, nestedAck) =>
      if status < 200 || status >= 300 then Some(Status(status))
      else match Parse(body)
        case Err(e) => Some(Unparsed(e))
        case Ok(m) =>
          var actual := ResolveAck(ExpectedAck(op), OrElse(m.operationName, m.rawRoot), nestedAck, cfg.acceptWrapped);
          if actual == ExpectedAck(op) then None else Some(WrongAck(actual))
  }

  /** The four acknowledgements, by name, and the wrapping answer some hosts give instead. */
  predicate Acknowledges(op: Operation, name: string, acceptWrapped: bool) {
    || (op == CommsOnLine && name == "commsOnLineAck") || (op == GetDescriptor && name == "descriptorList")
    || (op == SetKeepAlive && name == "setKeepAliveAck") || (op == KeepAlive && name == "keepAliveAck")
    || (acceptWrapped && name == "g2sResponse")
  }

  /** A reply that grants a request: a success status, a body that parses, and in it the acknowledgement. */
  predicate Grants(cfg: EngineConfig, op: Operation, reply: Reply) {
    && reply.Http? && 200 <= reply.status <= 299 && Parse(reply.body).Ok?
    && Acknowledges(op, Parse(reply.body).value.operationName, cfg.acceptWrapped)
  }

  /** A request is acknowledged exactly by a reply that grants it. */
  lemma AcknowledgedExactly(cfg: EngineConfig, op: Operation, reply: Reply)
    ensures Outcome(cfg, op, reply).None? <==> Grants(cfg, op, reply)
  {
    if reply.Http? && Parse(reply.body).Ok? {
      FallbackNeverFires(reply.body);
      hide Parse;
      assert ExpectedAck(op) != "";
      AckNamesApart(op);
      AckAccepted(ExpectedAck(op), Parse(reply.body).value.operationName, reply.nestedAck, cfg.acceptWrapped);
    }
  }

  lemma AckNamesApart(op: Operation)
    ensures forall name :: name == ExpectedAck(op) <==> Acknowledges(op, name, false)
  {
  }

  /** And otherwise fails for the first thing that is wrong with the reply. */
  lemma FailureTells(cfg: EngineConfig, op: Operation, reply: Reply)
    requires !Grants(cfg, op, reply)
    ensures Outcome(cfg, op, reply) ==
      Some(if reply.TransportError? then Transport
           else if reply.status < 200 || reply.status > 299 then Status(reply.status)
           else if Parse(reply.body).Err? then Unparsed(Parse(reply.body).error)
           else WrongAck(Parse(reply.body).value.operationName))
  {
    AcknowledgedExactly(cfg, op, reply);
    if reply.Http? && Parse(reply.body).Ok? {
      FallbackNeverFires(reply.body);
      hide Parse;
    }
  }

  function AckStatus(reply: Reply): string {
    if reply.Http? then "http_" + Itoa(reply.status) else ""
  }

  // ----- one step at a time -----

  datatype Phase =
    | CheckContext
    | OpenSession
    | Describe(sessionID: string)
    | Configure(sessionID: string)
    | FirstBeat(sessionID: string)
    | AwaitTick(sessionID: string)
    | Beat(sessionID: string)
    | Reconnect
    | Stopped

  datatype Machine = Machine(phase: Phase, state: EngineState, trace: seq<Exchange>)

  function SessionID(cfg: EngineConfig, now: int): string {
    cfg.instanceID + "-" + Itoa(now)
  }

  /** Sessions opened at different times have different ids. */
  lemma SessionIDsDiffer(cfg: EngineConfig, m: int, n: int)
    ensures SessionID(cfg, m) == SessionID(cfg, n) <==> m == n
  {
    var head := cfg.instanceID + "-";
    if SessionID(cfg, m) == SessionID(cfg, n) {
      assert (head + Itoa(m))[|head|..] == Itoa(m) && (head + Itoa(n))[|head|..] == Itoa(n);
      ItoaInjective(m, n);
    }
  }

  /** State after an acknowledged exchange. */
  function Acknowledged(cfg: EngineConfig, s: EngineState, op: Operation, sessionID: string, reply: Reply): EngineState {
    var s := s.(lastMessageType := ExpectedAck(op), lastCommandType := op.Name(), lastSessionID := sessionID,
                lastHostID := cfg.hostID, lastAckStatus := AckStatus(reply), lastError := None);
    match op
    case CommsOnLine => s.(sessionState := "online", connectionState := "host_connected", heartbeatState := "idle")
    case KeepAlive => s.(heartbeatState := "healthy", connectionState := "host_connected")
    case _ => s
  }

  /** What an acknowledged exchange leaves, field by field. */
  lemma AcknowledgedLeaves(cfg: EngineConfig, s: EngineState, op: Operation, sessionID: string, reply: Reply)
    requires reply.Http?
    ensures var n := Acknowledged(cfg, s, op, sessionID, reply);
            && Acknowledges(op, n.lastMessageType, false) && n.lastSessionID == sessionID && n.lastHostID == cfg.hostID
            && n.lastAckStatus == "http_" + Itoa(reply.status) && n.lastError == None
            && n.lastCommandType == (match op case CommsOnLine => "commsOnLine" case GetDescriptor => "getDescriptor"
                                              case SetKeepAlive => "setKeepAlive" case KeepAlive => "keepAlive")
            && n.sessionState == (if op == CommsOnLine then "online" else s.sessionState)
            && n.connectionState == (if op == CommsOnLine || op == KeepAlive then "host_connected" else s.connectionState)
            && n.heartbeatState == (if op == CommsOnLine then "idle" else if op == KeepAlive then "healthy" else s.heartbeatState)
  {
  }

  function ConnectFailed(s: EngineState, why: Failure): EngineState {
    s.(sessionState := "connect_failed", connectionState := "host_unreachable", heartbeatState := "failed", lastError := Some(why))
  }

  /** State after a failed exchange: which fields change depends on how far the session was. */
  function Failed(s: EngineState, op: Operation, why: Failure): EngineState {
    match op
    case CommsOnLine => ConnectFailed(s, why)
    case KeepAlive => s.(heartbeatState := "failed", connectionState := "host_unreachable", lastError := Some(why))
    case _ =>
      s.(sessionState := "startup_failed", connectionState := "host_connected", heartbeatState := "failed", lastError := Some(why))
  }

  /** One exchange: on success go to `next`, on failure to `fallback` with the failure recorded. */
  function Exchanged(cfg: EngineConfig, m: Machine, op: Operation, sessionID: string, reply: Reply,
                     next: Phase, fallback: Phase): Machine
  {
    match Outcome(cfg, op, reply)
    case None => Machine(next, Acknowledged(cfg, m.state, op, sessionID, reply), m.trace + [Exchange(op, sessionID, true)])
    case Some(why) => Machine(fallback, Failed(m.state, op, why), m.trace + [Exchange(op, sessionID, false)])
  }

  function EngineStep(cfg: EngineConfig, m: Machine, d: Decision): Machine {
    match m.phase
    case CheckContext => m.(phase := if d.done then Stopped else OpenSession)
    case OpenSession =>
      if cfg.hostURL == "" then m.(phase := Stopped, state := ConnectFailed(m.state, NoHostURL))
      else
        var sid := SessionID(cfg, d.now);
        Exchanged(cfg, m, CommsOnLine, sid, d.reply, Describe(sid), Stopped)
    case Describe(sid) => Exchanged(cfg, m, GetDescriptor, sid, d.reply, Configure(sid), Stopped)
    case Configure(sid) => Exchanged(cfg, m, SetKeepAlive, sid, d.reply, FirstBeat(sid), Stopped)
    case FirstBeat(sid) => Exchanged(cfg, m, KeepAlive, sid, d.reply, AwaitTick(sid), Reconnect)
    case AwaitTick(sid) => m.(phase := if d.done then Stopped else Beat(sid))
    case Beat(sid) => Exchanged(cfg, m, KeepAlive, sid, d.reply, AwaitTick(sid), Reconnect)
    case Reconnect => m.(phase := if d.done then Stopped else CheckContext)
    case Stopped => m
  }

  function EngineRun(cfg: EngineConfig, m: Machine, decisions: seq<Decision>): Machine
    decreases |decisions|
  {
    if decisions == [] then m else EngineRun(cfg, EngineStep(cfg, m, decisions[0]), decisions[1..])
  }

  // ----- the language of runs -----

  /** A session that came up, beat a number of times, and lost its heartbeat. */
  datatype Cycle = Cycle(sessionID: string, beats: nat)

  function Opening(sid: string): seq<Exchange> {
    [Exchange(CommsOnLine, sid, true), Exchange(GetDescriptor, sid, true), Exchange(SetKeepAlive, sid, true)]
  }

  function Beats(sid: string, n: nat): seq<Exchange> {
    seq(n, _ => Exchange(KeepAlive, sid, true))
  }

  function CycleTrace(c: Cycle): seq<Exchange> {
    Opening(c.sessionID) + Beats(c.sessionID, c.beats) + [Exchange(KeepAlive, c.sessionID, false)]
  }

  function Cycles(cycles: seq<Cycle>): seq<Exchange> {
    if cycles == [] then [] else Cycles(cycles[..|cycles| - 1]) + CycleTrace(cycles[|cycles| - 1])
  }

  /** The unfinished or failed session a run may end in. */
  ghost predicate IsTailOf(t: seq<Exchange>, sid: string, beats: nat) {
    || t <= Opening(sid) + Beats(sid, beats)
    || t == [Exchange(CommsOnLine, sid, false)]
    || t == [Exchange(CommsOnLine, sid, true), Exchange(GetDescriptor, sid, false)]
    || t == [Exchange(CommsOnLine, sid, true), Exchange(GetDescriptor, sid, true), Exchange(SetKeepAlive, sid, false)]
  }

  ghost predicate IsTail(t: seq<Exchange>) {
    exists sid, beats :: IsTailOf(t, sid, beats)
  }

  ghost predicate IsRun(trace: seq<Exchange>) {
    exists cycles, tail :: IsTail(tail) && trace == Cycles(cycles) + tail
  }

  /** The open session a phase stands in the middle of. */
  ghost predicate TailAt(phase: Phase, tail: seq<Exchange>) {
    match phase
    case CheckContext => tail == []
    case OpenSession => tail == []
    case Reconnect => tail == []
    case Describe(sid) => tail == Opening(sid)[..1]
    case Configure(sid) => tail == Opening(sid)[..2]
    case FirstBeat(sid) => tail == Opening(sid)
    case AwaitTick(sid) => |tail| >= 3 && tail == Opening(sid) + Beats(sid, |tail| - 3)
    case Beat(sid) => |tail| >= 3 && tail == Opening(sid) + Beats(sid, |tail| - 3)
    case Stopped => IsTail(tail)
  }

  lemma TailAtIsTail(phase: Phase, tail: seq<Exchange>)
    requires TailAt(phase, tail)
    ensures IsTail(tail)
  {
    match phase
    case AwaitTick(sid) => assert IsTailOf(tail, sid, |tail| - 3);
    case Beat(sid) => assert IsTailOf(tail, sid, |tail| - 3);
    case Describe(sid) => assert IsTailOf(tail, sid, 0);
    case Configure(sid) => assert IsTailOf(tail, sid, 0);
    case FirstBeat(sid) => assert IsTailOf(tail, sid, 0);
    case Stopped =>
    case _ => assert IsTailOf(tail, "", 0);
  }

  /** How the phase and the trace move together in one step. */
  ghost predicate PhaseStep(p: Phase, q: Phase, events: seq<Exchange>) {
    match p
    case CheckContext => events == [] && (q == Stopped || q == OpenSession)
    case OpenSession =>
      (events == [] && q == Stopped)
      || (|events| == 1 && events[0].op == CommsOnLine && q == if events[0].ok then Describe(events[0].sessionID) else Stopped)
    case Describe(sid) =>
      |events| == 1 && events[0] == Exchange(GetDescriptor, sid, events[0].ok) && q == if events[0].ok then Configure(sid) else Stopped
    case Configure(sid) =>
      |events| == 1 && events[0] == Exchange(SetKeepAlive, sid, events[0].ok) && q == if events[0].ok then FirstBeat(sid) else Stopped
    case FirstBeat(sid) =>
      |events| == 1 && events[0] == Exchange(KeepAlive, sid, events[0].ok) && q == if events[0].ok then AwaitTick(sid) else Reconnect
    case Beat(sid) =>
      |events| == 1 && events[0] == Exchange(KeepAlive, sid, events[0].ok) && q == if events[0].ok then AwaitTick(sid) else Reconnect
    case AwaitTick(sid) => events == [] && (q == Stopped || q == Beat(sid))
    case Reconnect => events == [] && (q == Stopped || q == CheckContext)
    case Stopped => events == [] && q == Stopped
  }

  lemma StepMoves(cfg: EngineConfig, m: Machine, d: Decision) returns (events: seq<Exchange>)
    ensures PhaseStep(m.phase, EngineStep(cfg, m, d).phase, events)
    ensures EngineStep(cfg, m, d).trace == m.trace + events
  {
    events := EngineStep(cfg, m, d).trace[|m.trace|..];
  }

  /** A start-up exchange extends the open session, or ends the run with it. */
  lemma StartUpTail(phase: Phase, sid: string, tail: seq<Exchange>, ok: bool)
    requires TailAt(phase, tail)
    requires phase == OpenSession || phase == Describe(sid) || phase == Configure(sid)
    ensures phase == OpenSession ==>
      TailAt(if ok then Describe(sid) else Stopped, tail + [Exchange(CommsOnLine, sid, ok)])
    ensures phase == Describe(sid) ==>
      TailAt(if ok then Configure(sid) else Stopped, tail + [Exchange(GetDescriptor, sid, ok)])
    ensures phase == Configure(sid) ==>
      TailAt(if ok then FirstBeat(sid) else Stopped, tail + [Exchange(SetKeepAlive, sid, ok)])
  {
    assert Opening(sid)[..1] == [Exchange(CommsOnLine, sid, true)];
    assert Opening(sid)[..2] == [Exchange(CommsOnLine, sid, true), Exchange(GetDescriptor, sid, true)];
    if !ok {
      assert phase == OpenSession ==> IsTailOf(tail + [Exchange(CommsOnLine, sid, ok)], sid, 0);
      assert phase == Describe(sid) ==> IsTailOf(tail + [Exchange(GetDescriptor, sid, ok)], sid, 0);
      assert phase == Configure(sid) ==> IsTailOf(tail + [Exchange(SetKeepAlive, sid, ok)], sid, 0);
    }
  }

  /** A heartbeat extends the open session, or closes the cycle. */
  lemma BeatTail(phase: Phase, sid: string, tail: seq<Exchange>)
    requires TailAt(phase, tail) && (phase == FirstBeat(sid) || phase == Beat(sid))
    ensures TailAt(AwaitTick(sid), tail + [Exchange(KeepAlive, sid, true)])
    ensures |tail| >= 3 && tail + [Exchange(KeepAlive, sid, false)] == CycleTrace(Cycle(sid, |tail| - 3))
  {
    assert Opening(sid) + Beats(sid, 0) == Opening(sid);
    assert Beats(sid, |tail| - 3) + [Exchange(KeepAlive, sid, true)] == Beats(sid, |tail| - 2);
  }

  lemma StepTail(p: Phase, q: Phase, events: seq<Exchange>, cycles: seq<Cycle>, tail: seq<Exchange>)
    returns (cycles': seq<Cycle>, tail': seq<Exchange>)
    requires TailAt(p, tail) && PhaseStep(p, q, events)
    ensures TailAt(q, tail') && Cycles(cycles) + tail + events == Cycles(cycles') + tail'
  {
    TailAtIsTail(p, tail);
    cycles', tail' := cycles, tail;
    if events != [] {
      tail' := tail + events;
      var e := events[0];
      assert events == [e];
      if p.FirstBeat? || p.Beat? {
        BeatTail(p, e.sessionID, tail);
        if !e.ok {
          cycles', tail' := cycles + [Cycle(e.sessionID, |tail| - 3)], [];
          assert cycles'[..|cycles|] == cycles;
        }
      } else {
        StartUpTail(p, e.sessionID, tail, e.ok);
      }
    }
  }

  lemma {:induction false} RunTail(cfg: EngineConfig, m: Machine, ds: seq<Decision>, cycles: seq<Cycle>, tail: seq<Exchange>)
    requires TailAt(m.phase, tail) && m.trace == Cycles(cycles) + tail
    ensures IsRun(EngineRun(cfg, m, ds).trace)
    decreases |ds|
  {
    if ds == [] {
      TailAtIsTail(m.phase, tail);
    } else {
      var events := StepMoves(cfg, m, ds[0]);
      var cycles', tail' := StepTail(m.phase, EngineStep(cfg, m, ds[0]).phase, events, cycles, tail);
      RunTail(cfg, EngineStep(cfg, m, ds[0]), ds[1..], cycles', tail');
    }
  }

  /** Every run of the engine is a series of full sessions followed by at most one unfinished
      or failed one, each session under a single session id. */
  lemma RunLanguage(cfg: EngineConfig, s: EngineState, ds: seq<Decision>)
    ensures IsRun(EngineRun(cfg, Machine(CheckContext, s, []), ds).trace)
  {
    assert Cycles([]) + [] == [];
    RunTail(cfg, Machine(CheckContext, s, []), ds, [], []);
  }

  // ----- the language is exact -----

  /** Where an exchange leads from a phase that waits for one; the automaton behind the grammar. */
  function After(p: Phase, e: Exchange): Option<Phase> {
    match p
    case OpenSession => if e.op == CommsOnLine then Some(if e.ok then Describe(e.sessionID) else Stopped) else None
    case Describe(sid) =>
      if e.op == GetDescriptor && e.sessionID == sid then Some(if e.ok then Configure(sid) else Stopped) else None
    case Configure(sid) =>
      if e.op == SetKeepAlive && e.sessionID == sid then Some(if e.ok then FirstBeat(sid) else Stopped) else None
    case FirstBeat(sid) =>
      if e.op == KeepAlive && e.sessionID == sid then Some(if e.ok then Beat(sid) else OpenSession) else None
    case Beat(sid) =>
      if e.op == KeepAlive && e.sessionID == sid then Some(if e.ok then Beat(sid) else OpenSession) else None
    case _ => None
  }

  /** The phase after a series of exchanges, if each was possible. */
  function End(p: Phase, t: seq<Exchange>): Option<Phase>
    decreases |t|
  {
    if t == [] then Some(p) else match After(p, t[0]) case Some(q) => End(q, t[1..]) case None => None
  }

  lemma {:induction false} EndConcat(p: Phase, a: seq<Exchange>, b: seq<Exchange>)
    ensures End(p, a).Some? ==> End(p, a + b) == End(End(p, a).value, b)
    ensures End(p, a).None? ==> End(p, a + b).None?
    decreases |a|
  {
    if a == [] {
      assert a + b == b;
    } else {
      assert (a + b)[1..] == a[1..] + b;
      if After(p, a[0]).Some? { EndConcat(After(p, a[0]).value, a[1..], b); }
    }
  }

  lemma {:induction false} EndBeats(p: Phase, sid: string, n: nat)
    requires p == FirstBeat(sid) || p == Beat(sid)
    ensures End(p, Beats(sid, n)) == Some(if n == 0 then p else Beat(sid))
    decreases n
  {
    if n > 0 {
      assert Beats(sid, n)[1..] == Beats(sid, n - 1);
      EndBeats(Beat(sid), sid, n - 1);
    }
  }

  lemma EndOpen(sid: string, n: nat)
    ensures End(OpenSession, Opening(sid) + Beats(sid, n)) == Some(if n == 0 then FirstBeat(sid) else Beat(sid))
  {
    var o := Opening(sid);
    assert o[1..] == [o[1], o[2]] && o[1..][1..] == [o[2]] && o[1..][1..][1..] == [];
    assert End(OpenSession, o) == End(Describe(sid), [o[1], o[2]]) == End(Configure(sid), [o[2]]) == Some(FirstBeat(sid));
    EndConcat(OpenSession, o, Beats(sid, n));
    EndBeats(FirstBeat(sid), sid, n);
  }

  lemma {:induction false} EndCycles(cycles: seq<Cycle>)
    ensures End(OpenSession, Cycles(cycles)) == Some(OpenSession)
    decreases |cycles|
  {
    if cycles != [] {
      var c := cycles[|cycles| - 1];
      EndCycles(cycles[..|cycles| - 1]);
      EndOpen(c.sessionID, c.beats);
      EndConcat(OpenSession, Opening(c.sessionID) + Beats(c.sessionID, c.beats), [Exchange(KeepAlive, c.sessionID, false)]);
      EndConcat(OpenSession, Cycles(cycles[..|cycles| - 1]), CycleTrace(c));
    }
  }

  lemma EndTail(t: seq<Exchange>, sid: string, beats: nat)
    requires IsTailOf(t, sid, beats)
    ensures End(OpenSession, t).Some?
  {
    if t <= Opening(sid) + Beats(sid, beats) {
      EndOpen(sid, beats);
      EndConcat(OpenSession, t, (Opening(sid) + Beats(sid, beats))[|t|..]);
      assert t + (Opening(sid) + Beats(sid, beats))[|t|..] == Opening(sid) + Beats(sid, beats);
    } else {
      var e0, e1 := Exchange(CommsOnLine, sid, true), Exchange(GetDescriptor, sid, true);
      var f1, f2 := Exchange(GetDescriptor, sid, false), Exchange(SetKeepAlive, sid, false);
      assert [e0, f1][1..] == [f1] && [e0, e1, f2][1..] == [e1, f2] && [e1, f2][1..] == [f2];
      assert [f1][1..] == [] && [f2][1..] == [];
      assert After(Configure(sid), f2) == Some(Stopped);
      assert End(Configure(sid), [f2]) == End(Stopped, [f2][1..]);
      assert End(Describe(sid), [e1, f2]) == End(Configure(sid), [f2]);
    }
  }

  /** Grammar and automaton agree on this side: every trace of the language can be walked. */
  lemma RunWalks(t: seq<Exchange>)
    requires IsRun(t)
    ensures End(OpenSession, t).Some?
  {
    var cycles, tail :| IsTail(tail) && t == Cycles(cycles) + tail;
    var sid, beats :| IsTailOf(tail, sid, beats);
    EndCycles(cycles);
    EndTail(tail, sid, beats);
    EndConcat(OpenSession, Cycles(cycles), tail);
  }

  /** The phase in which the engine next talks to the host, if it is not cancelled first. */
  function Ready(p: Phase): Phase {
    match p
    case CheckContext => OpenSession
    case Reconnect => OpenSession
    case AwaitTick(sid) => Beat(sid)
    case _ => p
  }

  const LIVE := Decision(false, TransportError, 0)

  lemma GetReady(cfg: EngineConfig, m: Machine) returns (ds: seq<Decision>)
    ensures EngineRun(cfg, m, ds) == m.(phase := Ready(m.phase))
  {
    match m.phase
    case Reconnect =>
      ds := [LIVE, LIVE];
      assert ds[1..] == [LIVE] && ds[1..][1..] == [];
      assert EngineRun(cfg, m, ds) == EngineRun(cfg, m.(phase := CheckContext), [LIVE]);
    case CheckContext => ds := [LIVE];
    case AwaitTick(sid) => ds := [LIVE];
    case _ => ds := [];
  }

  /** For every operation there is a reply the engine accepts: a legacy acknowledgement. */
  lemma GrantingReply(cfg: EngineConfig, op: Operation) returns (reply: Reply)
    ensures Outcome(cfg, op, reply).None?
  {
    var ack, ns := ExpectedAck(op), "urn:g2s:lab";
    AckNames(op);
    LegacyTokensParse(SOAP11_NAMESPACE, ns, ack, []);
    reply := Http(200, Document(LegacyTokens(SOAP11_NAMESPACE, ns, ack, []), true), "");
    assert Parse(reply.body) == Ok(LegacyHead(SOAP11_NAMESPACE, ns, ack));
  }

  lemma AckNames(op: Operation)
    ensures ExpectedAck(op) != "" && NameOf(ExpectedAck(op)) == Plain
  {
    forall a: string, b: string | |a| != |b| ensures !EqualFold(a, b) {
      if EqualFold(a, b) { FoldKeepsLength(a, b); }
    }
  }

  /** The session ids the engine can mint. */
  ghost predicate Minted(cfg: EngineConfig, e: Exchange) {
    e.op == CommsOnLine ==> exists now :: e.sessionID == SessionID(cfg, now)
  }

  lemma EngineRunOne(cfg: EngineConfig, m: Machine, d: Decision)
    ensures EngineRun(cfg, m, [d]) == EngineStep(cfg, m, d)
  {
    assert [d][1..] == [];
  }

  lemma FollowOne(cfg: EngineConfig, m: Machine, e: Exchange) returns (d: Decision, next: Machine)
    requires cfg.hostURL != "" && After(m.phase, e).Some? && Minted(cfg, e)
    ensures EngineRun(cfg, m, [d]) == next
    ensures next.trace == m.trace + [e] && Ready(next.phase) == After(m.phase, e).value
  {
    hide EngineRun, Parse, Acknowledged, Failed;
    var reply := TransportError;
    if e.ok { reply := GrantingReply(cfg, e.op); }
    var now := 0;
    if e.op == CommsOnLine { now :| e.sessionID == SessionID(cfg, now); }
    d := Decision(false, reply, now);
    next := EngineStep(cfg, m, d);
    EngineRunOne(cfg, m, d);
  }

  lemma {:induction false} EngineRunConcat(cfg: EngineConfig, m: Machine, a: seq<Decision>, b: seq<Decision>)
    ensures EngineRun(cfg, m, a + b) == EngineRun(cfg, EngineRun(cfg, m, a), b)
    decreases |a|
  {
    if a == [] {
      assert a + b == b;
    } else {
      assert (a + b)[1..] == a[1..] + b;
      EngineRunConcat(cfg, EngineStep(cfg, m, a[0]), a[1..], b);
    }
  }

  lemma {:induction false} Follow(cfg: EngineConfig, m: Machine, t: seq<Exchange>) returns (ds: seq<Decision>)
    requires cfg.hostURL != "" && End(Ready(m.phase), t).Some? && forall e <- t :: Minted(cfg, e)
    ensures EngineRun(cfg, m, ds).trace == m.trace + t
    decreases |t|
  {
    hide EngineStep, Minted;
    if t == [] {
      ds := [];
    } else {
      var quiet := GetReady(cfg, m);
      var ready := m.(phase := Ready(m.phase));
      var d, next := FollowOne(cfg, ready, t[0]);
      var rest := Follow(cfg, next, t[1..]);
      EngineRunConcat(cfg, m, quiet, [d] + rest);
      EngineRunConcat(cfg, ready, [d], rest);
      assert m.trace + [t[0]] + t[1..] == m.trace + t;
      ds := quiet + ([d] + rest);
    }
  }

  /** The traces of the engine, over all decisions, are exactly the language: the grammar allows
      nothing that some host, clock and cancellation would not bring about. */
  lemma RunLanguageExact(cfg: EngineConfig, s: EngineState, t: seq<Exchange>)
    requires cfg.hostURL != ""
    ensures (exists ds :: EngineRun(cfg, Machine(CheckContext, s, []), ds).trace == t)
       <==> IsRun(t) && forall e <- t :: Minted(cfg, e)
  {
    var start := Machine(CheckContext, s, []);
    if IsRun(t) && forall e <- t :: Minted(cfg, e) {
      RunWalks(t);
      var ds := Follow(cfg, start, t);
      assert [] + t == t;
    }
    if ds :| EngineRun(cfg, start, ds).trace == t {
      RunLanguage(cfg, s, ds);
      RunMints(cfg, start, ds);
    }
  }

  lemma StepMints(cfg: EngineConfig, m: Machine, d: Decision)
    ensures forall e <- EngineStep(cfg, m, d).trace :: e in m.trace || Minted(cfg, e)
  {
    var next := EngineStep(cfg, m, d);
    if next.trace != m.trace {
      var e := next.trace[|m.trace|];
      assert next.trace == m.trace + [e];
      assert e.op == CommsOnLine ==> e.sessionID == SessionID(cfg, d.now);
    }
  }

  lemma {:induction false} RunMints(cfg: EngineConfig, m: Machine, ds: seq<Decision>)
    requires forall e <- m.trace :: Minted(cfg, e)
    ensures forall e <- EngineRun(cfg, m, ds).trace :: Minted(cfg, e)
    decreases |ds|
  {
    if ds != [] {
      StepMints(cfg, m, ds[0]);
      RunMints(cfg, EngineStep(cfg, m, ds[0]), ds[1..]);
    }
  }

  // ----- what every moment of a run satisfies -----

  ghost predicate LostBeat(e: Exchange) {
    e.op == KeepAlive && !e.ok
  }

  /** A session opens first or right after a lost heartbeat; everything else follows a successful
      exchange of the same session. */
  ghost predicate Linked(t: seq<Exchange>) {
    forall i :: 0 < i < |t| ==>
      if t[i].op == CommsOnLine then LostBeat(t[i - 1]) else t[i - 1].ok && t[i].sessionID == t[i - 1].sessionID
  }

  /** What the last exchange says about the phase. */
  ghost predicate LastFits(phase: Phase, last: Exchange) {
    && (phase in {CheckContext, OpenSession, Reconnect} ==> LostBeat(last))
    && (phase.Describe? || phase.Configure? ==> last.op != KeepAlive)
    && (phase.Describe? || phase.Configure? || phase.FirstBeat? || phase.AwaitTick? || phase.Beat? ==>
        last.ok && last.sessionID == phase.sessionID)
  }

  ghost predicate MomentInv(m: Machine) {
    && Linked(m.trace)
    && (if m.trace == [] then m.phase in {CheckContext, OpenSession, Stopped}
        else
          var last := m.trace[|m.trace| - 1];
          LastFits(m.phase, last) && (m.state.heartbeatState == "healthy" <==> last.op == KeepAlive && last.ok))
  }

  /** What an exchange does to the heartbeat. */
  lemma HeartbeatAfter(cfg: EngineConfig, s: EngineState, op: Operation, sid: string, reply: Reply, why: Failure)
    ensures Acknowledged(cfg, s, op, sid, reply).heartbeatState == "healthy"
       <==> op == KeepAlive || (op in {GetDescriptor, SetKeepAlive} && s.heartbeatState == "healthy")
    ensures Failed(s, op, why).heartbeatState != "healthy"
  {
    assert |"idle"| == 4 && |"failed"| == 6 && |"healthy"| == 7;
  }

  lemma ExchangeMoment(cfg: EngineConfig, m: Machine, op: Operation, sid: string, reply: Reply, next: Phase, fallback: Phase)
    requires MomentInv(m)
    requires if op == CommsOnLine then m.phase == OpenSession
             else m.trace != [] && m.trace[|m.trace| - 1].ok && m.trace[|m.trace| - 1].sessionID == sid
    requires op in {GetDescriptor, SetKeepAlive} ==> m.trace[|m.trace| - 1].op != KeepAlive
    requires LastFits(next, Exchange(op, sid, true)) && LastFits(fallback, Exchange(op, sid, false))
    ensures MomentInv(Exchanged(cfg, m, op, sid, reply, next, fallback))
  {
    var why := if Outcome(cfg, op, reply).Some? then Outcome(cfg, op, reply).value else Transport;
    HeartbeatAfter(cfg, m.state, op, sid, reply, why);
    LinkedSnoc(m.trace, Exchange(op, sid, true));
    LinkedSnoc(m.trace, Exchange(op, sid, false));
  }

  lemma LinkedSnoc(t: seq<Exchange>, e: Exchange)
    requires Linked(t)
    requires t != [] ==>
      if e.op == CommsOnLine then LostBeat(t[|t| - 1]) else t[|t| - 1].ok && e.sessionID == t[|t| - 1].sessionID
    ensures Linked(t + [e])
  {
  }

  lemma StepMoment(cfg: EngineConfig, m: Machine, d: Decision)
    requires MomentInv(m)
    ensures MomentInv(EngineStep(cfg, m, d))
  {
    match m.phase
    case OpenSession =>
      if cfg.hostURL != "" {
        var sid := SessionID(cfg, d.now);
        ExchangeMoment(cfg, m, CommsOnLine, sid, d.reply, Describe(sid), Stopped);
      } else {
        HeartbeatAfter(cfg, m.state, CommsOnLine, "", d.reply, NoHostURL);
      }
    case Describe(sid) => ExchangeMoment(cfg, m, GetDescriptor, sid, d.reply, Configure(sid), Stopped);
    case Configure(sid) => ExchangeMoment(cfg, m, SetKeepAlive, sid, d.reply, FirstBeat(sid), Stopped);
    case FirstBeat(sid) => ExchangeMoment(cfg, m, KeepAlive, sid, d.reply, AwaitTick(sid), Reconnect);
    case Beat(sid) => ExchangeMoment(cfg, m, KeepAlive, sid, d.reply, AwaitTick(sid), Reconnect);
    case _ =>
  }

  /** At every moment of every run: exchanges are linked, and once anything was exchanged the
      heartbeat reads healthy exactly when the last exchange was an acknowledged heartbeat. */
  lemma {:induction false} RunMoment(cfg: EngineConfig, m: Machine, ds: seq<Decision>)
    requires MomentInv(m)
    ensures MomentInv(EngineRun(cfg, m, ds))
    decreases |ds|
  {
    if ds != [] {
      StepMoment(cfg, m, ds[0]);
      RunMoment(cfg, EngineStep(cfg, m, ds[0]), ds[1..]);
    }
  }

  // ----- what the host said -----

  /** The phases in which the engine sends a request. */
  predicate Sends(cfg: EngineConfig, p: Phase) {
    p.Describe? || p.Configure? || p.FirstBeat? || p.Beat? || (p == OpenSession && cfg.hostURL != "")
  }

  /** The replies a run got, in the order of its requests. */
  function Replies(cfg: EngineConfig, m: Machine, ds: seq<Decision>): seq<Reply>
    decreases |ds|
  {
    if ds == [] then []
    else (if Sends(cfg, m.phase) then [ds[0].reply] else []) + Replies(cfg, EngineStep(cfg, m, ds[0]), ds[1..])
  }

  lemma StepReply(cfg: EngineConfig, m: Machine, d: Decision)
    ensures var n := EngineStep(cfg, m, d);
            if Sends(cfg, m.phase) then
              && |n.trace| == |m.trace| + 1 && n.trace[..|m.trace|] == m.trace
              && (n.trace[|m.trace|].ok <==> Grants(cfg, n.trace[|m.trace|].op, d.reply))
            else n.trace == m.trace
  {
    hide Parse, Outcome, Grants, Acknowledged, Failed;
    AcknowledgedExactly(cfg, CommsOnLine, d.reply);
    AcknowledgedExactly(cfg, GetDescriptor, d.reply);
    AcknowledgedExactly(cfg, SetKeepAlive, d.reply);
    AcknowledgedExactly(cfg, KeepAlive, d.reply);
  }

  /** Over any run there is one exchange per reply, in order, and it went well exactly if the reply grants it. */
  lemma {:induction false} RunReplies(cfg: EngineConfig, m: Machine, ds: seq<Decision>)
    ensures var r, replies := EngineRun(cfg, m, ds).trace, Replies(cfg, m, ds);
            && |r| == |m.trace| + |replies| && r[..|m.trace|] == m.trace
            && forall i :: |m.trace| <= i < |r| ==> (r[i].ok <==> Grants(cfg, r[i].op, replies[i - |m.trace|]))
    decreases |ds|
  {
    hide EngineStep, Grants, Sends;
    if ds != [] {
      var n := EngineStep(cfg, m, ds[0]);
      StepReply(cfg, m, ds[0]);
      RunReplies(cfg, n, ds[1..]);
      var r := EngineRun(cfg, m, ds).trace;
      assert r[..|n.trace|] == n.trace;
      assert r[..|m.trace|] == n.trace[..|m.trace|];
      if n.trace != m.trace { assert r[|m.trace|] == n.trace[|m.trace|]; }
    }
  }

  /** Without a host there is no exchange, and an engine that is not cancelled at once reports it. */
  lemma {:induction false} NoHostNoExchange(cfg: EngineConfig, m: Machine, ds: seq<Decision>)
    requires cfg.hostURL == "" && m.trace == [] && m.phase in {CheckContext, OpenSession, Stopped}
    ensures EngineRun(cfg, m, ds).trace == []
    ensures m.phase == OpenSession && ds != [] ==>
      EngineRun(cfg, m, ds).state == m.state.(sessionState := "connect_failed", connectionState := "host_unreachable",
                                              heartbeatState := "failed", lastError := Some(NoHostURL))
    decreases |ds|
  {
    if ds != [] {
      var n := EngineStep(cfg, m, ds[0]);
      NoHostNoExchange(cfg, n, ds[1..]);
      if n.phase == Stopped { RunStopped(cfg, n, ds[1..]); }
    }
  }

  /** The state as the last exchange alone determines it. */
  ghost predicate StateTells(cfg: EngineConfig, s: EngineState, last: Exchange) {
    && s.sessionState == (if last.ok || last.op == KeepAlive then "online"
                          else if last.op == CommsOnLine then "connect_failed" else "startup_failed")
    && s.connectionState == (if !last.ok && last.op in {CommsOnLine, KeepAlive} then "host_unreachable"
                             else "host_connected")
    && s.heartbeatState == (if !last.ok then "failed" else if last.op == KeepAlive then "healthy" else "idle")
    && (s.lastError.None? <==> last.ok)
    && (last.ok ==> Acknowledges(last.op, s.lastMessageType, false) && s.lastCommandType == last.op.Name()
                    && s.lastSessionID == last.sessionID && s.lastHostID == cfg.hostID)
  }

  ghost predicate StateFits(cfg: EngineConfig, m: Machine) {
    && MomentInv(m)
    && (cfg.hostURL == "" ==> m.trace == [])
    && (m.trace != [] ==> StateTells(cfg, m.state, m.trace[|m.trace| - 1]))
  }

  /** An exchange turns one last exchange's state into the next one's. */
  lemma ExchangeTells(cfg: EngineConfig, m: Machine, op: Operation, sid: string, reply: Reply, next: Phase, fallback: Phase)
    requires op != CommsOnLine ==> m.trace != [] && StateTells(cfg, m.state, m.trace[|m.trace| - 1]) && m.trace[|m.trace| - 1].ok
    requires op in {GetDescriptor, SetKeepAlive} ==> m.trace[|m.trace| - 1].op != KeepAlive
    ensures var r := Exchanged(cfg, m, op, sid, reply, next, fallback);
            r.trace != [] && StateTells(cfg, r.state, r.trace[|r.trace| - 1])
  {
    var ok := Outcome(cfg, op, reply).None?;
    assert (m.trace + [Exchange(op, sid, ok)])[|m.trace|] == Exchange(op, sid, ok);
  }

  lemma StepFits(cfg: EngineConfig, m: Machine, d: Decision)
    requires StateFits(cfg, m)
    ensures StateFits(cfg, EngineStep(cfg, m, d))
  {
    StepMoment(cfg, m, d);
    match m.phase
    case OpenSession =>
      if cfg.hostURL != "" {
        var sid := SessionID(cfg, d.now);
        ExchangeTells(cfg, m, CommsOnLine, sid, d.reply, Describe(sid), Stopped);
      }
    case Describe(sid) => ExchangeTells(cfg, m, GetDescriptor, sid, d.reply, Configure(sid), Stopped);
    case Configure(sid) => ExchangeTells(cfg, m, SetKeepAlive, sid, d.reply, FirstBeat(sid), Stopped);
    case FirstBeat(sid) => ExchangeTells(cfg, m, KeepAlive, sid, d.reply, AwaitTick(sid), Reconnect);
    case Beat(sid) => ExchangeTells(cfg, m, KeepAlive, sid, d.reply, AwaitTick(sid), Reconnect);
    case _ =>
  }

  /** At every moment of every run the engine's state is the one its last exchange tells. */
  lemma {:induction false} RunFits(cfg: EngineConfig, m: Machine, ds: seq<Decision>)
    requires StateFits(cfg, m)
    ensures StateFits(cfg, EngineRun(cfg, m, ds))
    decreases |ds|
  {
    if ds != [] {
      StepFits(cfg, m, ds[0]);
      RunFits(cfg, EngineStep(cfg, m, ds[0]), ds[1..]);
    }
  }

  // ----- the loops -----

  lemma RunNext(cfg: EngineConfig, m: Machine, ds: seq<Decision>, i: nat)
    requires i < |ds|
    ensures EngineRun(cfg, m, ds[i..]) == EngineRun(cfg, EngineStep(cfg, m, ds[i]), ds[i + 1..])
  {
    assert ds[i..][0] == ds[i] && ds[i..][1..] == ds[i + 1..];
  }

  lemma {:induction false} RunStopped(cfg: EngineConfig, m: Machine, ds: seq<Decision>)
    requires m.phase == Stopped
    ensures EngineRun(cfg, m, ds) == m
    decreases |ds|
  {
    if ds != [] { RunStopped(cfg, m, ds[1..]); }
  }

  /** The engine half of a server. Its loops consume the decisions one by one and hand back
      the phase they stand in when the decisions end. */
  class Engine {
    const cfg: EngineConfig
    var state: EngineState
    ghost var trace: seq<Exchange>

    ghost function At(phase: Phase): Machine
      reads this
    {
      Machine(phase, state, trace)
    }

    constructor (cfg: EngineConfig, state: EngineState)
      ensures this.cfg == cfg && At(CheckContext) == Machine(CheckContext, state, [])
    {
      this.cfg := cfg;
      this.state := state;
      this.trace := [];
    }

    /** The request-and-acknowledge part that the four run...Once functions share. */
    method RunOnce(op: Operation, sessionID: string, reply: Reply) returns (err: Option<Failure>)
      modifies this
      ensures err == Outcome(cfg, op, reply) && (err.None? <==> Grants(cfg, op, reply))
      ensures trace == old(trace) + [Exchange(op, sessionID, err.None?)]
      ensures state == if err.None? then Acknowledged(cfg, old(state), op, sessionID, reply) else old(state)
    {
      err := Outcome(cfg, op, reply);
      AcknowledgedExactly(cfg, op, reply);
      trace := trace + [Exchange(op, sessionID, err.None?)];
      if err.None? {
        if op == CommsOnLine {
          state := state.(sessionState := "online", connectionState := "host_connected", heartbeatState := "idle");
        } else if op == KeepAlive {
          state := state.(heartbeatState := "healthy", connectionState := "host_connected");
        }
        state := state.(lastMessageType := ExpectedAck(op), lastCommandType := op.Name(), lastSessionID := sessionID,
                        lastHostID := cfg.hostID, lastAckStatus := AckStatus(reply), lastError := None);
      }
    }

    method RunCommsOnlineOnce(d: Decision) returns (sessionID: string, err: Option<Failure>)
      modifies this
      ensures var before := Machine(OpenSession, old(state), old(trace));
              EngineStep(cfg, before, d) ==
              if err.None? then At(Describe(sessionID)) else Machine(Stopped, ConnectFailed(state, err.value), trace)
      ensures err.None? ==> sessionID == cfg.instanceID + "-" + Itoa(d.now)
    {
      if cfg.hostURL == "" {
        return "", Some(NoHostURL);
      }
      sessionID := SessionID(cfg, d.now);
      err := RunOnce(CommsOnLine, sessionID, d.reply);
    }

    method RecordFailure(op: Operation, why: Failure)
      modifies this`state
      ensures state == Failed(old(state), op, why)
    {
      match op {
        case CommsOnLine =>
          state := state.(sessionState := "connect_failed", connectionState := "host_unreachable");
        case KeepAlive =>
          state := state.(connectionState := "host_unreachable");
        case _ =>
          state := state.(sessionState := "startup_failed", connectionState := "host_connected");
      }
      state := state.(heartbeatState := "failed", lastError := Some(why));
    }

    /** One heartbeat; a failed one is recorded. */
    method BeatOnce(sessionID: string, d: Decision, ghost from: Phase) returns (phase: Phase)
      requires from == FirstBeat(sessionID) || from == Beat(sessionID)
      modifies this
      ensures At(phase) == EngineStep(cfg, Machine(from, old(state), old(trace)), d)
      ensures phase == AwaitTick(sessionID) || phase == Reconnect
    {
      var err := RunOnce(KeepAlive, sessionID, d.reply);
      if err.Some? {
        RecordFailure(KeepAlive, err.value);
        return Reconnect;
      }
      return AwaitTick(sessionID);
    }

    /** One turn of the tick loop: wait for a tick or the end, then beat. */
    method AwaitAndBeat(sessionID: string, ds: seq<Decision>, start: nat) returns (phase: Phase, i: nat)
      requires start < |ds|
      modifies this
      ensures start < i <= |ds| && (phase == AwaitTick(sessionID) || phase == Reconnect || phase == Stopped || i == |ds|)
      ensures EngineRun(cfg, Machine(AwaitTick(sessionID), old(state), old(trace)), ds[start..]) == EngineRun(cfg, At(phase), ds[i..])
    {
      RunNext(cfg, At(AwaitTick(sessionID)), ds, start);
      i := start + 1;
      if ds[start].done {
        return Stopped, i;
      }
      phase := Beat(sessionID);
      if i == |ds| { return; }
      RunNext(cfg, At(phase), ds, i);
      phase := BeatOnce(sessionID, ds[i], phase);
      i := i + 1;
    }

    /** runKeepAliveLoop: a first heartbeat, then one per tick until one fails. */
    method RunKeepAliveLoop(sessionID: string, ds: seq<Decision>, start: nat) returns (phase: Phase, i: nat)
      requires start <= |ds|
      modifies this
      ensures start <= i <= |ds| && (phase == Reconnect || phase == Stopped || i == |ds|)
      ensures EngineRun(cfg, Machine(FirstBeat(sessionID), old(state), old(trace)), ds[start..]) == EngineRun(cfg, At(phase), ds[i..])
    {
      ghost var final := EngineRun(cfg, At(FirstBeat(sessionID)), ds[start..]);
      phase, i := FirstBeat(sessionID), start;
      if i == |ds| { return; }
      RunNext(cfg, At(phase), ds, i);
      phase := BeatOnce(sessionID, ds[i], phase);
      i := i + 1;
      while phase == AwaitTick(sessionID) && i < |ds|
        invariant start <= i <= |ds|
        invariant phase == AwaitTick(sessionID) || phase == Reconnect || phase == Stopped || i == |ds|
        invariant final == EngineRun(cfg, At(phase), ds[i..])
      {
        phase, i := AwaitAndBeat(sessionID, ds, i);
      }
    }

    /** runStartupExchange: getDescriptor, then setKeepAlive. */
    method RunStartupExchange(sessionID: string, ds: seq<Decision>, start: nat) returns (phase: Phase, i: nat)
      requires start <= |ds|
      modifies this
      ensures start <= i <= |ds| && (phase == FirstBeat(sessionID) || phase == Stopped || i == |ds|)
      ensures EngineRun(cfg, Machine(Describe(sessionID), old(state), old(trace)), ds[start..]) == EngineRun(cfg, At(phase), ds[i..])
    {
      phase, i := Describe(sessionID), start;
      if i == |ds| { return; }
      RunNext(cfg, At(phase), ds, i);
      var err := RunOnce(GetDescriptor, sessionID, ds[i].reply);
      i := i + 1;
      if err.Some? {
        RecordFailure(GetDescriptor, err.value);
        return Stopped, i;
      }
      phase := Configure(sessionID);
      if i == |ds| { return; }
      RunNext(cfg, At(phase), ds, i);
      err := RunOnce(SetKeepAlive, sessionID, ds[i].reply);
      i := i + 1;
      if err.Some? {
        RecordFailure(SetKeepAlive, err.value);
        return Stopped, i;
      }
      return FirstBeat(sessionID), i;
    }

    /** The exchanges of one turn of sessionEngineLoop: open, start up, beat. */
    method RunSession(ds: seq<Decision>, start: nat) returns (phase: Phase, i: nat)
      requires start < |ds|
      modifies this
      ensures start < i <= |ds| && (phase == Reconnect || phase == Stopped || i == |ds|)
      ensures EngineRun(cfg, Machine(OpenSession, old(state), old(trace)), ds[start..]) == EngineRun(cfg, At(phase), ds[i..])
    {
      RunNext(cfg, At(OpenSession), ds, start);
      var sessionID, err := RunCommsOnlineOnce(ds[start]);
      i := start + 1;
      if err.Some? {
        RecordFailure(CommsOnLine, err.value);
        return Stopped, i;
      }
      phase, i := RunStartupExchange(sessionID, ds, i);
      if phase == FirstBeat(sessionID) {
        phase, i := RunKeepAliveLoop(sessionID, ds, i);
      }
    }

    /** One turn of sessionEngineLoop: check for cancellation, run a session, wait to reconnect. */
    method RunTurn(ds: seq<Decision>, start: nat) returns (phase: Phase, i: nat)
      requires start < |ds|
      modifies this
      ensures start < i <= |ds| && (phase == CheckContext || phase == Stopped || i == |ds|)
      ensures EngineRun(cfg, Machine(CheckContext, old(state), old(trace)), ds[start..]) == EngineRun(cfg, At(phase), ds[i..])
    {
      hide EngineRun, Exchanged;
      RunNext(cfg, At(CheckContext), ds, start);
      i := start + 1;
      if ds[start].done { return Stopped, i; }
      phase := OpenSession;
      if i == |ds| { return; }
      phase, i := RunSession(ds, i);
      if phase == Reconnect && i < |ds| {
        RunNext(cfg, At(phase), ds, i);
        phase := if ds[i].done then Stopped else CheckContext;
        i := i + 1;
      }
    }

    /** sessionEngineLoop, for as long as decisions last. */
    method SessionEngineLoop(ds: seq<Decision>) returns (phase: Phase)
      modifies this
      ensures At(phase) == EngineRun(cfg, Machine(CheckContext, old(state), old(trace)), ds)
    {
      ghost var final := EngineRun(cfg, At(CheckContext), ds);
      phase := CheckContext;
      var i := 0;
      assert ds[0..] == ds;
      while phase == CheckContext && i < |ds|
        invariant 0 <= i <= |ds| && (phase == CheckContext || phase == Stopped || i == |ds|)
        invariant final == EngineRun(cfg, At(phase), ds[i..])
        decreases |ds| - i
      {
        phase, i := RunTurn(ds, i);
      }
      if phase == Stopped {
        RunStopped(cfg, At(phase), ds[i..]);
      }
    }
  }
}
