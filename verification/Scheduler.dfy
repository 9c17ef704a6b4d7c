/** The outbound scheduler: who owns its worker, what its counters mean, and how far apart its
    session-opening attempts are. */
module Scheduler {
  import opened Text

  datatype SchedulerConfig = SchedulerConfig(
    enabled: bool, openSessionOnStart: bool, heartbeatIntervalMS: int, openRetryIntervalMS: int,
    failureThreshold: int, runHeartbeatWhenIdle: bool)

  datatype Operation = CommsOnLine | KeepAlive

  /** The scheduler's part of the runtime state. A time of None is Go's zero time. */
  datatype Stats = Stats(
    running: bool, targetURL: string, lastAttemptAt: Option<int>, lastTickAt: Option<int>, lastSuccessAt: Option<int>,
    lastError: string, consecutiveFailures: nat, openAttempts: nat, heartbeatAttempts: nat, lastOperation: Option<Operation>)

  const NEW_STATS := Stats(false, "", None, None, None, "", 0, 0, 0, None)

  /** How one send fared. */
  datatype SendResult = SendError(error: string) | Sent(ok: bool, error: string, httpStatus: int, responseRoot: string) {
    predicate Succeeded() { Sent? && ok }

    function ErrorText(): string {
      match this
      case SendError(error) => error
      case Sent(_, error, status, root) =>
        if error != "" then error else "http_status=" + Itoa(status) + " response_root=" + root
    }
  }

  /** schedulerConfig: unset or negative numbers get their defaults. */
  function Normalize(cfg: SchedulerConfig): SchedulerConfig {
    cfg.(heartbeatIntervalMS := if cfg.heartbeatIntervalMS <= 0 then 5000 else cfg.heartbeatIntervalMS,
         openRetryIntervalMS := if cfg.openRetryIntervalMS <= 0 then 2000 else cfg.openRetryIntervalMS,
         failureThreshold := if cfg.failureThreshold <= 0 then 2 else cfg.failureThreshold,
         openSessionOnStart := cfg.openSessionOnStart || !cfg.runHeartbeatWhenIdle)
  }

  const MILLISECOND := 1_000_000

  // ----- one tick -----

  /** What a tick sends at time `now`, if anything, given the session state it read. */
  function TickOperation(st: Stats, sessionState: string, cfg: SchedulerConfig, now: int): Option<Operation> {
    if !st.running then None
    else if sessionState == "online" then Some(KeepAlive)
    else if !cfg.openSessionOnStart && !cfg.runHeartbeatWhenIdle then None
    else if st.lastAttemptAt.Some? && now - st.lastAttemptAt.value < cfg.openRetryIntervalMS * MILLISECOND then None
    else if cfg.runHeartbeatWhenIdle then Some(KeepAlive)
    else Some(CommsOnLine)
  }

  /** The counters after a send. */
  function Recorded(st: Stats, op: Operation, res: SendResult, now: int): Stats {
    var st := st.(lastTickAt := Some(now), lastAttemptAt := Some(now), lastOperation := Some(op),
                  openAttempts := st.openAttempts + (if op == CommsOnLine then 1 else 0),
                  heartbeatAttempts := st.heartbeatAttempts + (if op == KeepAlive then 1 else 0));
    if res.Succeeded() then st.(lastSuccessAt := Some(now), consecutiveFailures := 0, lastError := "")
    else st.(consecutiveFailures := st.consecutiveFailures + 1, lastError := res.ErrorText())
  }

  /** The server fields a send may touch. */
  datatype Health = Health(stats: Stats, sessionState: string, heartbeatState: string)

  function AfterResult(h: Health, op: Operation, res: SendResult, now: int, cfg: SchedulerConfig): Health {
    var st := Recorded(h.stats, op, res, now);
    if res.Succeeded() then
      Health(st, if op == CommsOnLine then "online" else h.sessionState, "healthy")
    else if st.consecutiveFailures >= cfg.failureThreshold then
      Health(st, if op == CommsOnLine then "idle" else h.sessionState, "degraded")
    else h.(stats := st)
  }

  // ----- what a tick does, in the settings as given -----

  /** The four settings a tick and its result use, when they are not given as positive numbers. */
  lemma NormalizedSettings(raw: SchedulerConfig)
    ensures var cfg := Normalize(raw);
            && cfg.heartbeatIntervalMS == (if raw.heartbeatIntervalMS > 0 then raw.heartbeatIntervalMS else 5000)
            && cfg.openRetryIntervalMS == (if raw.openRetryIntervalMS > 0 then raw.openRetryIntervalMS else 2000)
            && cfg.failureThreshold == (if raw.failureThreshold > 0 then raw.failureThreshold else 2)
            && cfg.runHeartbeatWhenIdle == raw.runHeartbeatWhenIdle && cfg.enabled == raw.enabled
            && (cfg.openSessionOnStart <==> raw.openSessionOnStart || !raw.runHeartbeatWhenIdle)
  {
  }

  /** The retry interval in nanoseconds, two seconds unless given. */
  function RetryGap(raw: SchedulerConfig): int {
    (if raw.openRetryIntervalMS > 0 then raw.openRetryIntervalMS else 2000) * 1_000_000
  }

  /** Nothing was attempted yet, or not within the retry interval. */
  predicate Due(st: Stats, raw: SchedulerConfig, now: int) {
    st.lastAttemptAt.Some? ==> now - st.lastAttemptAt.value >= RetryGap(raw)
  }

  /** When a tick sends, and what: a running scheduler beats whenever the session is online; otherwise, when due, it
      opens a session, or beats if it is to beat while idle; and else it sends nothing. */
  lemma TickSends(st: Stats, sessionState: string, raw: SchedulerConfig, now: int)
    ensures var sent := TickOperation(st, sessionState, Normalize(raw), now);
            && (sent == Some(KeepAlive) <==>
                  st.running && (sessionState == "online" || (Due(st, raw, now) && raw.runHeartbeatWhenIdle)))
            && (sent == Some(CommsOnLine) <==>
                  st.running && sessionState != "online" && Due(st, raw, now) && !raw.runHeartbeatWhenIdle)
            && (sent == None <==> !st.running || (sessionState != "online" && !Due(st, raw, now)))
  {
  }

  /** What a result leaves: one more attempt of its own kind, at this time; a success ends the failures and, for an
      opening, brings the session online; a failure is one more, and from the threshold on takes the session down
      again, if it was an opening, and degrades the heartbeat. */
  lemma ResultLeaves(h: Health, op: Operation, res: SendResult, now: int, raw: SchedulerConfig)
    ensures var n := AfterResult(h, op, res, now, Normalize(raw));
            var given := if raw.failureThreshold > 0 then raw.failureThreshold else 2;
            var worn := h.stats.consecutiveFailures + 1 >= given;
            && n.stats.openAttempts == h.stats.openAttempts + (if op == CommsOnLine then 1 else 0)
            && n.stats.heartbeatAttempts == h.stats.heartbeatAttempts + (if op == KeepAlive then 1 else 0)
            && n.stats.lastAttemptAt == Some(now) && n.stats.lastTickAt == Some(now) && n.stats.lastOperation == Some(op)
            && n.stats.running == h.stats.running && n.stats.targetURL == h.stats.targetURL
            && (if res.Sent? && res.ok then
                  && n.stats.consecutiveFailures == 0 && n.stats.lastError == "" && n.stats.lastSuccessAt == Some(now)
                  && n.sessionState == (if op == CommsOnLine then "online" else h.sessionState)
                  && n.heartbeatState == "healthy"
                else
                  && n.stats.consecutiveFailures == h.stats.consecutiveFailures + 1
                  && n.stats.lastSuccessAt == h.stats.lastSuccessAt
                  && n.sessionState == (if worn && op == CommsOnLine then "idle" else h.sessionState)
                  && n.heartbeatState == (if worn then "degraded" else h.heartbeatState)
                  && n.stats.lastError ==
                       (if res.error != "" || res.SendError? then res.error
                        else "http_status=" + Itoa(res.httpStatus) + " response_root=" + res.responseRoot))
  {
  }

  // ----- start and stop -----

  type Worker = nat

  /** The cancel function held, named by its worker, and the stats beside it. */
  datatype Control = Control(current: Option<Worker>, stats: Stats)

  function Starting(st: Stats, url: string): Stats {
    st.(running := true, targetURL := url, lastError := "")
  }

  function Stopping(st: Stats): Stats {
    st.(running := false)
  }

  /** A start, of a scheduler that is enabled and has a target or of one that is not. */
  function AfterStart(c: Control, worker: Worker, usable: bool, url: string): Control {
    if !usable || c.current.Some? then c else Control(Some(worker), Starting(c.stats, url))
  }

  /** The locked part of a stop. */
  function AfterStop(c: Control): Control {
    if c.current.None? then c else Control(None, Stopping(c.stats))
  }

  /** A start takes hold only of a usable scheduler without a worker, and then clears the last error; a stop lets the
      worker go. Neither touches a counter, an attempt's time or the last operation. */
  lemma ControlLeaves(c: Control, worker: Worker, usable: bool, url: string)
    ensures var n := AfterStart(c, worker, usable, url);
            if usable && c.current.None? then
              && n.current == Some(worker) && n.stats.running && n.stats.targetURL == url && n.stats.lastError == ""
              && CountsKept(c.stats, n.stats)
            else n == c
    ensures var n := AfterStop(c);
            if c.current.Some? then
              && n.current == None && !n.stats.running && n.stats.targetURL == c.stats.targetURL
              && n.stats.lastError == c.stats.lastError && CountsKept(c.stats, n.stats)
            else n == c
  {
  }

  predicate CountsKept(before: Stats, after: Stats) {
    && after.lastAttemptAt == before.lastAttemptAt && after.lastTickAt == before.lastTickAt
    && after.lastSuccessAt == before.lastSuccessAt && after.consecutiveFailures == before.consecutiveFailures
    && after.openAttempts == before.openAttempts && after.heartbeatAttempts == before.heartbeatAttempts
    && after.lastOperation == before.lastOperation
  }

  // ----- the server object -----

  class Server {
    const config: SchedulerConfig
    const defaultTargetURL: string
    var health: Health
    var schedulerCancel: Option<Worker>   // the cancel function held, named by its worker

    constructor (config: SchedulerConfig, defaultTargetURL: string, sessionState: string, heartbeatState: string)
      ensures health == Health(NEW_STATS, sessionState, heartbeatState) && schedulerCancel == None
      ensures this.config == config && this.defaultTargetURL == defaultTargetURL
    {
      this.config, this.defaultTargetURL := config, defaultTargetURL;
      health, schedulerCancel := Health(NEW_STATS, sessionState, heartbeatState), None;
    }

    method SchedulerConfig() returns (cfg: SchedulerConfig)
      ensures cfg == Normalize(config)
    {
      cfg := config;
      if cfg.heartbeatIntervalMS <= 0 { cfg := cfg.(heartbeatIntervalMS := 5000); }
      if cfg.openRetryIntervalMS <= 0 { cfg := cfg.(openRetryIntervalMS := 2000); }
      if cfg.failureThreshold <= 0 { cfg := cfg.(failureThreshold := 2); }
      if !cfg.runHeartbeatWhenIdle { cfg := cfg.(openSessionOnStart := true); }
    }

    function Held(): Control
      reads this
    {
      Control(schedulerCancel, health.stats)
    }

    /** Start makes `worker` the current one, unless there is one or the scheduler is unusable. */
    method StartOutboundScheduler(worker: Worker) returns (ok: bool, started: bool)
      modifies this
      ensures ok == (config.enabled && defaultTargetURL != "")
      ensures started == (ok && old(schedulerCancel).None?)
      ensures Held() == AfterStart(old(Held()), worker, ok, defaultTargetURL)
      ensures health == old(health).(stats := health.stats)
    {
      if !config.enabled { return false, false; }
      if defaultTargetURL == "" { return false, false; }
      if schedulerCancel.Some? { return true, false; }
      schedulerCancel := Some(worker);
      health := health.(stats := health.stats.(running := true, targetURL := defaultTargetURL, lastError := ""));
      return true, true;
    }

    /** The locked part of Stop: it takes the cancel function away; calling it comes later. */
    method TakeCancel() returns (cancel: Option<Worker>)
      modifies this
      ensures cancel == old(schedulerCancel)
      ensures Held() == AfterStop(old(Held()))
      ensures health == old(health).(stats := health.stats)
    {
      cancel := schedulerCancel;
      if cancel.Some? {
        schedulerCancel := None;
        health := health.(stats := health.stats.(running := false));
      }
    }

    /** updateSchedulerAfterResult. */
    method UpdateSchedulerAfterResult(op: Operation, res: SendResult, now: int, cfg: SchedulerConfig)
      modifies this`health
      ensures health == AfterResult(old(health), op, res, now, cfg)
    {
      var st := health.stats;
      st := st.(lastTickAt := Some(now), lastAttemptAt := Some(now), lastOperation := Some(op));
      if op == CommsOnLine {
        st := st.(openAttempts := st.openAttempts + 1);
      } else if op == KeepAlive {
        st := st.(heartbeatAttempts := st.heartbeatAttempts + 1);
      }
      if res.Succeeded() {
        st := st.(lastSuccessAt := Some(now), consecutiveFailures := 0, lastError := "");
        health := health.(stats := st);
        if op == CommsOnLine { health := health.(sessionState := "online", heartbeatState := "healthy"); }
        if op == KeepAlive { health := health.(heartbeatState := "healthy"); }
        return;
      }
      st := st.(consecutiveFailures := st.consecutiveFailures + 1, lastError := res.ErrorText());
      health := health.(stats := st);
      if st.consecutiveFailures >= cfg.failureThreshold {
        if op == CommsOnLine { health := health.(sessionState := "idle"); }
        health := health.(heartbeatState := "degraded");
      }
    }

    /** runOutboundSchedulerTick: `now` is read before the send, `end` after it. */
    method RunOutboundSchedulerTick(cfg: SchedulerConfig, now: int, res: SendResult, end: int) returns (sent: Option<Operation>)
      modifies this`health
      ensures sent == TickOperation(old(health).stats, old(health).sessionState, cfg, now)
      ensures health == if sent.Some? then AfterResult(old(health), sent.value, res, end, cfg) else old(health)
    {
      var schedRunning, sessionState, lastAttempt := health.stats.running, health.sessionState, health.stats.lastAttemptAt;
      if !schedRunning { return None; }
      var operation := KeepAlive;
      if sessionState != "online" {
        if !cfg.openSessionOnStart && !cfg.runHeartbeatWhenIdle { return None; }
        operation := CommsOnLine;
        if lastAttempt.Some? && now - lastAttempt.value < cfg.openRetryIntervalMS * MILLISECOND { return None; }
      }
      if sessionState != "online" && cfg.runHeartbeatWhenIdle {
        operation := KeepAlive;
      }
      UpdateSchedulerAfterResult(operation, res, end, cfg);
      return Some(operation);
    }
  }

  // ----- ownership of workers -----

  /** Every locked region and every later cancel call is one step. `stops` are the Stop calls
      that have left the lock but not yet returned, `taken` the cancel function each holds. */
  datatype Ownership = Ownership(
    control: Control, started: set<Worker>, cancelled: set<Worker>, stops: set<nat>, taken: map<nat, Worker>)

  datatype OwnerStep =
    | Start(worker: Worker, usable: bool, url: string)
    | StopLocked(call: nat)
    | StopReturn(call: nat)
    | Send(op: Operation, res: SendResult, now: int)

  predicate Enabled(o: Ownership, step: OwnerStep) {
    match step
    case Start(worker, _, _) => worker !in o.started
    case StopLocked(call) => call !in o.stops
    case StopReturn(call) => call in o.stops
    case Send(_, _, _) => true
  }

  function OwnerNext(o: Ownership, step: OwnerStep): Ownership
    requires Enabled(o, step)
  {
    match step
    case Start(worker, usable, url) =>
      var control := AfterStart(o.control, worker, usable, url);
      o.(control := control, started := if control == o.control then o.started else o.started + {worker})
    case StopLocked(call) =>
      o.(control := AfterStop(o.control), stops := o.stops + {call},
         taken := if o.control.current.Some? then o.taken[call := o.control.current.value] else o.taken)
    case StopReturn(call) =>
      if call !in o.taken then o.(stops := o.stops - {call})
      else o.(stops := o.stops - {call}, taken := o.taken - {call}, cancelled := o.cancelled + {o.taken[call]})
    case Send(op, res, now) => o.(control := o.control.(stats := Recorded(o.control.stats, op, res, now)))
  }

  /** The steps that are possible are taken; an impossible one does not happen. */
  function OwnerRun(o: Ownership, steps: seq<OwnerStep>): Ownership
    decreases |steps|
  {
    if steps == [] then o
    else OwnerRun(if Enabled(o, steps[0]) then OwnerNext(o, steps[0]) else o, steps[1..])
  }

  const NO_WORKERS := Ownership(Control(None, NEW_STATS), {}, {}, {}, map[])

  function Current(o: Ownership): set<Worker> {
    match o.control.current case Some(w) => {w} case None => {}
  }

  ghost predicate Injective(m: map<nat, Worker>) {
    forall c, d | c in m && d in m && m[c] == m[d] :: c == d
  }

  /** Each started worker is in exactly one place. */
  ghost predicate Owned(o: Ownership) {
    && o.started == Current(o) + o.taken.Values + o.cancelled
    && Current(o) !! o.taken.Values && Current(o) !! o.cancelled && o.taken.Values !! o.cancelled
    && Injective(o.taken) && o.taken.Keys <= o.stops
    && (o.control.stats.running <==> o.control.current.Some?)
  }

  lemma AddTaken(m: map<nat, Worker>, call: nat, w: Worker)
    requires call !in m && w !in m.Values && Injective(m)
    ensures m[call := w].Values == m.Values + {w} && Injective(m[call := w])
  {
    var n := m[call := w];
    assert n[call] == w;
    forall c | c in m ensures c in n && n[c] == m[c] {}
  }

  lemma DropTaken(m: map<nat, Worker>, call: nat)
    requires call in m && Injective(m)
    ensures (m - {call}).Values == m.Values - {m[call]} && Injective(m - {call})
  {
    var n := m - {call};
    forall w ensures w in n.Values <==> w in m.Values && w != m[call] {
      if w in m.Values && w != m[call] {
        var c :| c in m && m[c] == w;
        assert c in n && n[c] == w;
      }
    }
  }

  lemma OwnerStepKeeps(o: Ownership, step: OwnerStep)
    requires Owned(o) && Enabled(o, step)
    ensures Owned(OwnerNext(o, step))
  {
    match step
    case StopLocked(call) => if o.control.current.Some? { AddTaken(o.taken, call, o.control.current.value); }
    case StopReturn(call) => if call in o.taken { DropTaken(o.taken, call); }
    case _ =>
  }

  lemma {:induction false} ValuesBound(m: map<nat, Worker>)
    requires Injective(m)
    ensures |m.Values| <= |m.Keys|
    decreases |m.Keys|
  {
    if m.Keys == {} {
      assert m.Values == {};
    } else {
      var call :| call in m;
      DropTaken(m, call);
      assert (m - {call}).Keys == m.Keys - {call};
      ValuesBound(m - {call});
    }
  }

  lemma {:induction false} SubsetCount<T>(a: set<T>, b: set<T>)
    requires a <= b
    ensures |a| <= |b|
  {
    if a != {} {
      var x :| x in a;
      SubsetCount(a - {x}, b - {x});
    }
  }

  /** Over every interleaving of Start and Stop calls: each started worker is the current one,
      held by exactly one Stop call on its way out, or cancelled; Running tells whether there is
      a current worker; and the workers still alive number at most one more than those calls. */
  lemma {:induction false} OwnershipHolds(o: Ownership, steps: seq<OwnerStep>)
    requires Owned(o)
    ensures Owned(OwnerRun(o, steps))
    ensures var r := OwnerRun(o, steps); |r.started - r.cancelled| <= 1 + |r.stops|
    decreases |steps|
  {
    if steps == [] {
      ValuesBound(o.taken);
      SubsetCount(o.taken.Keys, o.stops);
      assert o.started - o.cancelled == Current(o) + o.taken.Values;
      assert |Current(o) + o.taken.Values| == |Current(o)| + |o.taken.Values|;
    } else {
      if Enabled(o, steps[0]) { OwnerStepKeeps(o, steps[0]); }
      OwnershipHolds(if Enabled(o, steps[0]) then OwnerNext(o, steps[0]) else o, steps[1..]);
    }
  }

  // ----- counters -----

  datatype Action =
    | Result(op: Operation, res: SendResult, now: int)
    | Started(url: string)
    | StoppedNow
    | SetSession(sessionState: string)     // other writers of the session state

  function Act(h: Health, a: Action, cfg: SchedulerConfig): Health {
    match a
    case Result(op, res, now) => AfterResult(h, op, res, now, cfg)
    case Started(url) => h.(stats := Starting(h.stats, url))
    case StoppedNow => h.(stats := Stopping(h.stats))
    case SetSession(s) => h.(sessionState := s)
  }

  function ActAll(h: Health, actions: seq<Action>, cfg: SchedulerConfig): Health
    decreases |actions|
  {
    if actions == [] then h else Act(ActAll(h, actions[..|actions| - 1], cfg), actions[|actions| - 1], cfg)
  }

  /** The successes and failures among the actions, in order. */
  function Outcomes(actions: seq<Action>): seq<bool> {
    if actions == [] then []
    else
      var last := actions[|actions| - 1];
      Outcomes(actions[..|actions| - 1]) + if last.Result? then [last.res.Succeeded()] else []
  }

  /** n is the length of the longest all-failure suffix. */
  ghost predicate LongestFailingSuffix(outcomes: seq<bool>, n: nat) {
    && n <= |outcomes|
    && (forall i :: |outcomes| - n <= i < |outcomes| ==> !outcomes[i])
    && (n < |outcomes| ==> outcomes[|outcomes| - n - 1])
  }

  lemma LongestFailingSuffixUnique(outcomes: seq<bool>, m: nat, n: nat)
    requires LongestFailingSuffix(outcomes, m) && LongestFailingSuffix(outcomes, n)
    ensures m == n
  {
    var i, j := |outcomes| - m - 1, |outcomes| - n - 1;
    assert m < |outcomes| ==> outcomes[i];
    assert n < |outcomes| ==> outcomes[j];
  }

  /** Over any mix of results, starts, stops and session changes: the failure counter is the
      length of the longest all-failure suffix, the attempt counters add up to the number of
      results, and the heartbeat is exactly what that suffix says: healthy after a success, degraded
      once failures reach the threshold, and until then what it was before them. */
  lemma {:induction false} CountersHold(h: Health, actions: seq<Action>, cfg: SchedulerConfig)
    requires h.stats.consecutiveFailures == h.stats.openAttempts == h.stats.heartbeatAttempts == 0
    ensures var r, outcomes := ActAll(h, actions, cfg), Outcomes(actions);
            && LongestFailingSuffix(outcomes, r.stats.consecutiveFailures)
            && r.stats.openAttempts + r.stats.heartbeatAttempts == |outcomes|
            && r.heartbeatState ==
                 (if outcomes == [] then h.heartbeatState
                  else if outcomes[|outcomes| - 1] then "healthy"
                  else if r.stats.consecutiveFailures >= cfg.failureThreshold then "degraded"
                  else if r.stats.consecutiveFailures < |outcomes| then "healthy"
                  else h.heartbeatState)
    decreases |actions|
  {
    if actions != [] {
      CountersHold(h, actions[..|actions| - 1], cfg);
    }
  }

  // ----- spacing of session-opening attempts -----

  /** What one worker goes through: its ticks, and what others do between them. `now` and `end`
      are the clock before and after the tick's send. */
  datatype Event = Tick(now: int, res: SendResult, end: int) | Elsewhere(action: Action)

  datatype Log = Log(health: Health, clock: int, opens: seq<int>)

  /** The clock never runs backwards, and nobody else records results. */
  predicate Timely(clock: int, e: Event) {
    match e
    case Tick(now, _, end) => clock <= now <= end
    case Elsewhere(action) => !action.Result?
  }

  function LogStep(l: Log, e: Event, cfg: SchedulerConfig): Log {
    match e
    case Tick(now, res, end) =>
      (match TickOperation(l.health.stats, l.health.sessionState, cfg, now)
       case None => l.(clock := end)
       case Some(op) => Log(AfterResult(l.health, op, res, end, cfg), end,
                            if op == CommsOnLine then l.opens + [now] else l.opens))
    case Elsewhere(action) => l.(health := Act(l.health, action, cfg))
  }

  function LogRun(l: Log, events: seq<Event>, cfg: SchedulerConfig): Log
    decreases |events|
  {
    if events == [] then l else LogRun(LogStep(l, events[0], cfg), events[1..], cfg)
  }

  predicate TimelyRun(clock: int, events: seq<Event>)
    decreases |events|
  {
    events != [] ==>
      Timely(clock, events[0]) && TimelyRun(if events[0].Tick? then events[0].end else clock, events[1..])
  }

  /** Consecutive times are at least `gap` apart. */
  ghost predicate Spaced(times: seq<int>, gap: int) {
    forall i :: 0 < i < |times| ==> times[i] - times[i - 1] >= gap
  }

  ghost predicate LogInv(l: Log, gap: int) {
    && Spaced(l.opens, gap)
    && (l.health.stats.lastAttemptAt.Some? ==> l.health.stats.lastAttemptAt.value <= l.clock)
    && (l.opens != [] ==> l.health.stats.lastAttemptAt.Some?
                          && l.opens[|l.opens| - 1] <= l.health.stats.lastAttemptAt.value)
  }

  lemma LogStepKeeps(l: Log, e: Event, cfg: SchedulerConfig)
    requires LogInv(l, cfg.openRetryIntervalMS * MILLISECOND) && Timely(l.clock, e)
    ensures LogInv(LogStep(l, e, cfg), cfg.openRetryIntervalMS * MILLISECOND)
  {
  }

  lemma {:induction false} LogRunKeeps(l: Log, events: seq<Event>, cfg: SchedulerConfig)
    requires LogInv(l, cfg.openRetryIntervalMS * MILLISECOND) && TimelyRun(l.clock, events)
    ensures LogInv(LogRun(l, events, cfg), cfg.openRetryIntervalMS * MILLISECOND)
    decreases |events|
  {
    if events != [] {
      LogStepKeeps(l, events[0], cfg);
      LogRunKeeps(LogStep(l, events[0], cfg), events[1..], cfg);
    }
  }

  lemma {:induction false} SpacedSpread(times: seq<int>, gap: nat, i: nat, j: nat)
    requires Spaced(times, gap) && i <= j < |times|
    ensures times[j] - times[i] >= (j - i) * gap
    decreases j - i
  {
    if i < j {
      SpacedSpread(times, gap, i, j - 1);
      assert (j - i) * gap == (j - 1 - i) * gap + gap;
    }
  }

  lemma LessThanNextMultiple(window: nat, gap: nat)
    requires gap > 0
    ensures window < (window / gap + 1) * gap
  {
    assert (window / gap + 1) * gap == (window / gap) * gap + gap;
  }

  lemma CountInWindow(count: nat, gap: nat, window: nat)
    requires gap > 0 && count * gap <= window
    ensures count <= window / gap
  {
    LessThanNextMultiple(window, gap);
  }

  /** With one worker and a clock that never runs backwards, session-opening attempts start at
      least the normalized retry interval apart, so attempts i..j that all start within a window
      of length W number at most 1 + W / interval. */
  lemma OpensAreSpaced(start: Health, clock: int, events: seq<Event>, raw: SchedulerConfig, i: nat, j: nat, window: nat)
    requires start.stats.lastAttemptAt.None? || start.stats.lastAttemptAt.value <= clock
    requires TimelyRun(clock, events)
    ensures var gap := RetryGap(raw);
            var opens := LogRun(Log(start, clock, []), events, Normalize(raw)).opens;
            && gap > 0 && Spaced(opens, gap)
            && (i <= j < |opens| && opens[j] - opens[i] <= window ==> j - i + 1 <= 1 + window / gap)
  {
    var cfg := Normalize(raw);
    var gap := cfg.openRetryIntervalMS * MILLISECOND;
    LogRunKeeps(Log(start, clock, []), events, cfg);
    var opens := LogRun(Log(start, clock, []), events, cfg).opens;
    if i <= j < |opens| && opens[j] - opens[i] <= window {
      SpacedSpread(opens, gap, i, j);
      CountInWindow(j - i, gap, window);
    }
  }

  /** A scheduler that beats while idle never opens a session. */
  lemma {:induction false} IdleBeatsNeverOpen(l: Log, events: seq<Event>, cfg: SchedulerConfig)
    requires cfg.runHeartbeatWhenIdle
    ensures LogRun(l, events, cfg).opens == l.opens
    decreases |events|
  {
    if events != [] {
      IdleBeatsNeverOpen(LogStep(l, events[0], cfg), events[1..], cfg);
    }
  }

  /** What one event makes a worker send. */
  function SentAt(l: Log, e: Event, cfg: SchedulerConfig): (sent: seq<Operation>)
    ensures |sent| <= 1
  {
    match e
    case Tick(now, _, _) =>
      (match TickOperation(l.health.stats, l.health.sessionState, cfg, now) case Some(op) => [op] case None => [])
    case Elsewhere(_) => []
  }

  /** What one worker sends over a run, in order. */
  function Sent(l: Log, events: seq<Event>, cfg: SchedulerConfig): seq<Operation>
    decreases |events|
  {
    if events == [] then [] else SentAt(l, events[0], cfg) + Sent(LogStep(l, events[0], cfg), events[1..], cfg)
  }

  function Tally(ops: seq<Operation>, op: Operation): nat {
    if ops == [] then 0 else (if ops[0] == op then 1 else 0) + Tally(ops[1..], op)
  }

  lemma TallyConcat(a: seq<Operation>, b: seq<Operation>, op: Operation)
    requires |a| <= 1
    ensures Tally(a + b, op) == Tally(a, op) + Tally(b, op)
  {
    if a == [] {
      assert a + b == b;
    } else {
      assert (a + b)[1..] == b && a[1..] == [];
    }
  }

  lemma EventIsCounted(l: Log, e: Event, cfg: SchedulerConfig)
    requires Timely(l.clock, e)
    ensures var n, sent := LogStep(l, e, cfg), SentAt(l, e, cfg);
            && n.health.stats.openAttempts == l.health.stats.openAttempts + Tally(sent, CommsOnLine)
            && n.health.stats.heartbeatAttempts == l.health.stats.heartbeatAttempts + Tally(sent, KeepAlive)
            && |n.opens| == |l.opens| + Tally(sent, CommsOnLine)
            && n.clock == (if e.Tick? then e.end else l.clock)
  {
    hide TickOperation;
  }

  /** Over any run each send is one attempt of its own kind, and nothing else is; every opening is logged. */
  lemma {:induction false} SendsAreCounted(l: Log, events: seq<Event>, cfg: SchedulerConfig)
    requires TimelyRun(l.clock, events)
    ensures var r, sent := LogRun(l, events, cfg), Sent(l, events, cfg);
            && r.health.stats.openAttempts == l.health.stats.openAttempts + Tally(sent, CommsOnLine)
            && r.health.stats.heartbeatAttempts == l.health.stats.heartbeatAttempts + Tally(sent, KeepAlive)
            && |r.opens| == |l.opens| + Tally(sent, CommsOnLine)
    decreases |events|
  {
    hide LogStep, SentAt, Timely;
    if events != [] {
      var e := events[0];
      var n, sent := LogStep(l, e, cfg), SentAt(l, e, cfg);
      EventIsCounted(l, e, cfg);
      SendsAreCounted(n, events[1..], cfg);
      TallyConcat(sent, Sent(n, events[1..], cfg), CommsOnLine);
      TallyConcat(sent, Sent(n, events[1..], cfg), KeepAlive);
    }
  }

  /** An acknowledged opening makes the next tick a heartbeat, whenever it comes. */
  lemma OpeningThenBeat(l: Log, raw: SchedulerConfig, open: Event, next: Event)
    requires open.Tick? && next.Tick? && open.res.Succeeded()
    requires TickOperation(l.health.stats, l.health.sessionState, Normalize(raw), open.now) == Some(CommsOnLine)
    ensures Sent(l, [open, next], Normalize(raw)) == [CommsOnLine, KeepAlive]
  {
    var cfg := Normalize(raw);
    var n := LogStep(l, open, cfg);
    ResultLeaves(l.health, CommsOnLine, open.res, open.end, raw);
    assert [open, next][1..] == [next] && [next][1..] == [];
    assert Sent(n, [next], cfg) == SentAt(n, next, cfg) + Sent(LogStep(n, next, cfg), [], cfg);
  }
}
