/** The fleet supervisor's process table: start, stop, shutdown and any number of monitors of
    the same instance interleave, one locked region at a time, while children exit on their own. */
module Supervisor {
  import opened Text

  type Pid = nat

  /** What ProcessState says: not there yet, exited by itself (and how, in words), or ended by a signal. */
  datatype Status = Alive | Exited(text: string) | Signaled

  const MAX_RESTARTS := 3

  datatype RestartMeta = RestartMeta(desired: bool, restartCount: nat, lastExit: string)

  const NO_META := RestartMeta(false, 0, "")

  datatype GeneratedConfig = GeneratedConfig(instanceID: string, path: string, logDir: string)

  /** The result of starting a process; a cancelled context always makes it fail. */
  datatype Launch = Launched(pid: Pid) | LaunchError(error: string)

  /** The fields of supervisorServer that the lifecycle reads and writes. */
  datatype Table = Table(generated: seq<GeneratedConfig>, cmds: map<string, Pid>, restart: map<string, RestartMeta>)

  function Meta(restart: map<string, RestartMeta>, id: string): RestartMeta {
    if id in restart then restart[id] else NO_META
  }

  predicate Known(generated: seq<GeneratedConfig>, id: string) {
    exists g <- generated :: g.instanceID == id
  }

  /** markDesired: only a withdrawal resets the restart count. */
  function Marked(restart: map<string, RestartMeta>, id: string, desired: bool): map<string, RestartMeta> {
    var meta := Meta(restart, id);
    restart[id := meta.(desired := desired, restartCount := if desired then meta.restartCount else 0)]
  }

  /** Not exited as far as ProcessState.Exited tells: true also for a child ended by a signal. */
  predicate ProcessRunning(t: Table, os: Pid -> Status, id: string) {
    id in t.cmds && !os(t.cmds[id]).Exited?
  }

  // ----- the locked regions as functions -----

  datatype StartOutcome = AlreadyRunning | NotFound | StartFailed(error: string) | StartedAs(pid: Pid)

  function AfterStart(t: Table, os: Pid -> Status, id: string, launch: Launch): (Table, StartOutcome) {
    if ProcessRunning(t, os, id) then (t, AlreadyRunning)
    else if !Known(t.generated, id) then (t.(cmds := t.cmds - {id}), NotFound)
    else match launch
      case LaunchError(e) => (t.(cmds := t.cmds - {id}), StartFailed(e))
      case Launched(pid) =>
        (t.(cmds := t.cmds[id := pid], restart := Marked(t.restart, id, true)), StartedAs(pid))
  }

  /** stopOne; the process to kill, if there is one. */
  function AfterStop(t: Table, id: string): (Table, Option<Pid>) {
    (t.(cmds := t.cmds - {id}, restart := Marked(t.restart, id, false)),
     if id in t.cmds then Some(t.cmds[id]) else None)
  }

  datatype MonitorOutcome = Leave | Continue | GaveUp | LostConfig | RestartFailed | RestartedAs(pid: Pid)

  /** One locked iteration of monitorChild. */
  function AfterMonitor(t: Table, os: Pid -> Status, id: string, launch: Launch): (Table, MonitorOutcome) {
    var meta := Meta(t.restart, id);
    if !meta.desired || id !in t.cmds then (t, Leave)
    else if !os(t.cmds[id]).Exited? then (t, Continue)
    else
      var meta := meta.(lastExit := os(t.cmds[id]).text);
      if meta.restartCount >= MAX_RESTARTS then
        (t.(cmds := t.cmds - {id}, restart := t.restart[id := meta.(desired := false)]), GaveUp)
      else
        var meta := meta.(restartCount := meta.restartCount + 1);
        if !Known(t.generated, id) then (t.(cmds := t.cmds - {id}, restart := t.restart[id := meta]), LostConfig)
        else match launch
          case LaunchError(e) =>
            (t.(cmds := t.cmds - {id}, restart := t.restart[id := meta.(lastExit := "restart failed: " + e)]), RestartFailed)
          case Launched(pid) =>
            (t.(cmds := t.cmds[id := pid], restart := t.restart[id := meta]), RestartedAs(pid))
  }

  /** The locked part of shutdown: forget every child, and want none of them back. */
  function AfterShutdown(t: Table): Table {
    t.(cmds := map[],
       restart := map id | id in t.restart.Keys + t.cmds.Keys ::
         if id in t.cmds then Meta(t.restart, id).(desired := false) else t.restart[id])
  }

  // ----- the object -----

  class SupervisorServer {
    var generated: seq<GeneratedConfig>
    var cmds: map<string, Pid>
    var restart: map<string, RestartMeta>

    function View(): Table
      reads this
    {
      Table(generated, cmds, restart)
    }

    constructor (generated: seq<GeneratedConfig>)
      ensures View() == Table(generated, map[], map[])
    {
      this.generated, cmds, restart := generated, map[], map[];
    }

    method MarkDesired(id: string, desired: bool)
      modifies this`restart
      ensures restart == Marked(old(restart), id, desired)
    {
      var meta := Meta(restart, id);
      meta := meta.(desired := desired);
      if !desired {
        meta := meta.(restartCount := 0);
      }
      restart := restart[id := meta];
    }

    /** generatedByID: the first config with the id. */
    method GeneratedByID(id: string) returns (gen: Option<GeneratedConfig>)
      ensures gen.Some? <==> Known(generated, id)
      ensures gen.Some? ==> gen.value in generated && gen.value.instanceID == id
    {
      for i := 0 to |generated|
        invariant forall g <- generated[..i] :: g.instanceID != id
      {
        if generated[i].instanceID == id {
          return Some(generated[i]);
        }
      }
      return None;
    }

    method StartOne(os: Pid -> Status, id: string, launch: Launch) returns (r: StartOutcome)
      modifies this
      ensures (View(), r) == AfterStart(old(View()), os, id, launch)
    {
      if id in cmds && !os(cmds[id]).Exited? {
        return AlreadyRunning;
      }
      cmds := cmds - {id};
      var gen := GeneratedByID(id);
      if gen.None? {
        return NotFound;
      }
      if launch.LaunchError? {
        return StartFailed(launch.error);
      }
      cmds := cmds[id := launch.pid];
      assert cmds == old(cmds)[id := launch.pid];
      MarkDesired(id, true);
      return StartedAs(launch.pid);
    }

    method StopOne(id: string) returns (killed: Option<Pid>)
      modifies this
      ensures (View(), killed) == AfterStop(old(View()), id)
    {
      MarkDesired(id, false);
      if id !in cmds {
        cmds := cmds - {id};
        return None;
      }
      killed := Some(cmds[id]);
      cmds := cmds - {id};
    }

    method MonitorChild(os: Pid -> Status, id: string, launch: Launch) returns (r: MonitorOutcome)
      modifies this
      ensures (View(), r) == AfterMonitor(old(View()), os, id, launch)
    {
      var meta := Meta(restart, id);
      if !meta.desired {
        return Leave;
      }
      if id !in cmds {
        return Leave;
      }
      if !os(cmds[id]).Exited? {
        return Continue;
      }
      meta := meta.(lastExit := os(cmds[id]).text);
      if meta.restartCount >= MAX_RESTARTS {
        meta := meta.(desired := false);
        restart := restart[id := meta];
        cmds := cmds - {id};
        return GaveUp;
      }
      meta := meta.(restartCount := meta.restartCount + 1);
      restart := restart[id := meta];
      var gen := GeneratedByID(id);
      if gen.None? {
        cmds := cmds - {id};
        return LostConfig;
      }
      if launch.LaunchError? {
        meta := meta.(lastExit := "restart failed: " + launch.error);
        restart := restart[id := meta];
        assert restart == old(restart)[id := meta];
        cmds := cmds - {id};
        return RestartFailed;
      }
      cmds := cmds[id := launch.pid];
      return RestartedAs(launch.pid);
    }

    /** The loop over the children, in whatever order the map yields them. */
    method Shutdown() returns (killed: set<Pid>)
      modifies this
      ensures View() == AfterShutdown(old(View()))
      ensures killed == old(cmds).Values
    {
      ghost var goal := AfterShutdown(View());
      killed := {};
      while cmds.Keys != {}
        invariant AfterShutdown(View()) == goal
        invariant killed + cmds.Values == old(cmds).Values
        decreases cmds.Keys
      {
        var id :| id in cmds.Keys;
        ghost var next := View().(cmds := cmds - {id}, restart := restart[id := Meta(restart, id).(desired := false)]);
        ShutdownOneMore(View(), id);
        ValuesWithout(cmds, id);
        restart := restart[id := Meta(restart, id).(desired := false)];
        killed := killed + {cmds[id]};
        cmds := cmds - {id};
        assert View() == next;
      }
      ShutdownNothing(View());
    }
  }

  lemma ShutdownNothing(t: Table)
    requires t.cmds.Keys == {}
    ensures t.cmds.Values == {} && AfterShutdown(t) == t
  {
    assert t.cmds == map[];
  }

  /** Forgetting one child first does not change what a shutdown leaves. */
  lemma ShutdownOneMore(t: Table, id: string)
    requires id in t.cmds
    ensures AfterShutdown(t.(cmds := t.cmds - {id}, restart := t.restart[id := Meta(t.restart, id).(desired := false)]))
         == AfterShutdown(t)
  {
    var t' := t.(cmds := t.cmds - {id}, restart := t.restart[id := Meta(t.restart, id).(desired := false)]);
    assert t'.restart.Keys + t'.cmds.Keys == t.restart.Keys + t.cmds.Keys;
  }

  lemma ValuesWithout(m: map<string, Pid>, id: string)
    requires id in m
    ensures m.Values == (m - {id}).Values + {m[id]}
    ensures InjectiveTable(m) ==> InjectiveTable(m - {id}) && m[id] !in (m - {id}).Values
  {
    var n := m - {id};
    forall p | p in m.Values ensures p in n.Values + {m[id]} {
      var k :| k in m && m[k] == p;
      assert k != id ==> k in n && n[k] == p;
    }
  }

  // ----- the whole system -----

  /** The table, every process ever launched with its status, the live monitors, and a history:
      which children were seen to have exited or were killed, which exit led to which automatic
      launch, how many automatic restarts each instance has had, and how many it had had at each of its
      stops. */
  datatype System = System(
    table: Table, status: map<Pid, Status>, monitors: map<string, nat>, cancelled: bool, down: bool,
    reaped: set<Pid>, killed: set<Pid>, replacements: seq<(Pid, Pid)>,
    attempts: map<string, nat>, stops: map<string, seq<nat>>)

  datatype Event =
    | Start(id: string, launch: Launch)
    | Stop(id: string)
    | Monitor(id: string, launch: Launch)
    | Cancel                       // shutdown's s.cancel(), before it takes the lock
    | ShutdownLocked
    | ChildEnds(pid: Pid, how: Status)
    | Regenerate(generated: seq<GeneratedConfig>)

  function Count(m: map<string, nat>, id: string): nat {
    if id in m then m[id] else 0
  }

  function Bump(m: map<string, nat>, id: string): map<string, nat> {
    m[id := Count(m, id) + 1]
  }

  function StopsOf(stops: map<string, seq<nat>>, id: string): seq<nat> {
    if id in stops then stops[id] else []
  }

  /** The restarts an instance had had when it was last stopped; none if it never was. */
  function AtLastStop(stops: map<string, seq<nat>>, id: string): nat {
    var at := StopsOf(stops, id);
    if at == [] then 0 else at[|at| - 1]
  }

  /** A stop is noted with the restarts so far. */
  function NoteStop(stops: map<string, seq<nat>>, attempts: map<string, nat>, id: string): map<string, seq<nat>> {
    stops[id := StopsOf(stops, id) + [Count(attempts, id)]]
  }

  function Drop(m: map<string, nat>, id: string): map<string, nat> {
    if Count(m, id) == 0 then m else m[id := m[id] - 1]
  }

  function StatusIn(status: map<Pid, Status>): Pid -> Status {
    p => if p in status then status[p] else Alive
  }

  /** Kill ends a child that is still alive; it does nothing to one that has ended. */
  function Killed(status: map<Pid, Status>, pids: set<Pid>): map<Pid, Status> {
    map p <- status :: if p in pids && status[p] == Alive then Signaled else status[p]
  }

  /** A new child gets a fresh process id, and none starts once the context is cancelled. */
  predicate Possible(s: System, launch: Launch) {
    launch.Launched? ==> !s.cancelled && launch.pid !in s.status
  }

  predicate Enabled(s: System, e: Event) {
    match e
    case Start(_, launch) => Possible(s, launch)
    case Stop(_) => true
    case Monitor(id, launch) => Count(s.monitors, id) > 0 && Possible(s, launch)
    case Cancel => true
    case ShutdownLocked => s.cancelled
    case ChildEnds(pid, how) => pid in s.status && s.status[pid] == Alive && how != Alive
    case Regenerate(_) => true
  }

  function TrackedBy(t: Table, id: string): set<Pid> {
    if id in t.cmds then {t.cmds[id]} else {}
  }

  function NextStart(s: System, id: string, launch: Launch): System {
    var (t, r) := AfterStart(s.table, StatusIn(s.status), id, launch);
    if r.AlreadyRunning? then s
    else
      var s' := s.(table := t, reaped := s.reaped + TrackedBy(s.table, id));
      if r.StartedAs? then s'.(status := s.status[r.pid := Alive], monitors := Bump(s.monitors, id)) else s'
  }

  function NextStop(s: System, id: string): System {
    var (t, kill) := AfterStop(s.table, id);
    var victims := if kill.Some? then {kill.value} else {};
    s.(table := t, killed := s.killed + victims, status := Killed(s.status, victims), 
      stops := NoteStop(s.stops, s.attempts, id))
  }

  function NextMonitor(s: System, id: string, launch: Launch): System {
    var (t, r) := AfterMonitor(s.table, StatusIn(s.status), id, launch);
    if r.Leave? then s.(monitors := Drop(s.monitors, id))
    else if r.Continue? || id !in s.table.cmds then s
    else NextReap(s, id, t, r)
  }

  /** A monitor that found its child exited: the child is seen off, and replaced or not. */
  function NextReap(s: System, id: string, t: Table, r: MonitorOutcome): System
    requires id in s.table.cmds
  {
    var s' := s.(table := t, reaped := s.reaped + TrackedBy(s.table, id),
                 attempts := if r.GaveUp? then s.attempts else Bump(s.attempts, id));
    if r.RestartedAs? then
      s'.(status := s.status[r.pid := Alive], replacements := s.replacements + [(s.table.cmds[id], r.pid)])
    else s'.(monitors := Drop(s.monitors, id))
  }

  function NextShutdown(s: System): System {
    s.(table := AfterShutdown(s.table), killed := s.killed + s.table.cmds.Values,
       status := Killed(s.status, s.table.cmds.Values), down := true)
  }

  function Next(s: System, e: Event): System {
    match e
    case Start(id, launch) => NextStart(s, id, launch)
    case Stop(id) => NextStop(s, id)
    case Monitor(id, launch) => NextMonitor(s, id, launch)
    case Cancel => s.(cancelled := true)
    case ShutdownLocked => NextShutdown(s)
    case ChildEnds(pid, how) => s.(status := s.status[pid := how])
    case Regenerate(generated) => s.(table := s.table.(generated := generated))
  }

  function Run(s: System, events: seq<Event>): System
    decreases |events|
  {
    if events == [] then s else Run(if Enabled(s, events[0]) then Next(s, events[0]) else s, events[1..])
  }

  function Boot(generated: seq<GeneratedConfig>): System {
    System(Table(generated, map[], map[]), map[], map[], false, false, {}, {}, [], map[], map[])
  }

  // ----- the invariant -----

  ghost predicate InjectiveTable(cmds: map<string, Pid>) {
    forall a, b | a in cmds && b in cmds && cmds[a] == cmds[b] :: a == b
  }

  /** Every process ever launched is exactly one of tracked, seen to have exited, or killed. */
  ghost predicate Partition(cmds: map<string, Pid>, launched: set<Pid>, reaped: set<Pid>, killed: set<Pid>) {
    && InjectiveTable(cmds)
    && launched == cmds.Values + reaped + killed
    && cmds.Values !! reaped && cmds.Values !! killed && reaped !! killed
  }

  /** The history agrees with the process statuses, and no exit is replaced twice. */
  ghost predicate HistoryFits(status: map<Pid, Status>, reaped: set<Pid>, killed: set<Pid>, replacements: seq<(Pid, Pid)>) {
    && (forall p <- reaped :: p in status && status[p].Exited?)
    && (forall p <- killed :: p in status && status[p] != Alive)
    && (forall r <- replacements :: r.0 in reaped && r.1 in status)
    && (forall i, j | 0 <= i < j < |replacements| ::
          replacements[i].0 != replacements[j].0 && replacements[i].1 != replacements[j].1)
  }

  /** A tracked child is wanted and watched. */
  ghost predicate Watched(t: Table, monitors: map<string, nat>) {
    forall id <- t.cmds :: Meta(t.restart, id).desired && Count(monitors, id) >= 1
  }

  ghost predicate BudgetedFor(restart: map<string, RestartMeta>, attempts: map<string, nat>, stops: map<string, seq<nat>>, id: string) {
    && Meta(restart, id).restartCount <= MAX_RESTARTS
    && Count(attempts, id) == AtLastStop(stops, id) + Meta(restart, id).restartCount
    && AtLastStop(stops, id) <= MAX_RESTARTS * |StopsOf(stops, id)|
  }

  /** Restart counts stay within the limit and are exactly the automatic restarts since the last stop. */
  ghost predicate Budgeted(restart: map<string, RestartMeta>, attempts: map<string, nat>, stops: map<string, seq<nat>>) {
    forall id :: BudgetedFor(restart, attempts, stops, id)
  }

  ghost predicate Inv(s: System) {
    && Partition(s.table.cmds, s.status.Keys, s.reaped, s.killed)
    && HistoryFits(s.status, s.reaped, s.killed, s.replacements)
    && Watched(s.table, s.monitors)
    && Budgeted(s.table.restart, s.attempts, s.stops)
    && (s.down ==> s.cancelled && s.table.cmds == map[])
  }

  // ----- each step keeps it -----

  lemma ValuesWith(m: map<string, Pid>, id: string, p: Pid)
    requires id !in m && p !in m.Values && InjectiveTable(m)
    ensures m[id := p].Values == m.Values + {p} && InjectiveTable(m[id := p])
  {
    var n := m[id := p];
    assert n[id] == p;
    forall k | k in m ensures k in n && n[k] == m[k] {}
  }

  /** Forgetting a child, by reaping or by killing it. */
  lemma Forget(cmds: map<string, Pid>, id: string, launched: set<Pid>, reaped: set<Pid>, killed: set<Pid>)
    requires Partition(cmds, launched, reaped, killed)
    ensures var gone := if id in cmds then {cmds[id]} else {};
            && Partition(cmds - {id}, launched, reaped + gone, killed)
            && Partition(cmds - {id}, launched, reaped, killed + gone)
  {
    if id in cmds { ValuesWithout(cmds, id); } else { assert cmds - {id} == cmds; }
  }

  /** Forgetting an exited child and launching a fresh one in its place. */
  lemma Replace(cmds: map<string, Pid>, id: string, pid: Pid, launched: set<Pid>, reaped: set<Pid>, killed: set<Pid>)
    requires Partition(cmds, launched, reaped, killed) && pid !in launched
    ensures var gone := if id in cmds then {cmds[id]} else {};
            Partition(cmds[id := pid], launched + {pid}, reaped + gone, killed)
  {
    Forget(cmds, id, launched, reaped, killed);
    ValuesWith(cmds - {id}, id, pid);
    assert cmds[id := pid] == (cmds - {id})[id := pid];
  }

  lemma KilledKeeps(status: map<Pid, Status>, reaped: set<Pid>, killed: set<Pid>, replacements: seq<(Pid, Pid)>, pids: set<Pid>)
    requires HistoryFits(status, reaped, killed, replacements) && pids <= status.Keys
    ensures HistoryFits(Killed(status, pids), reaped, killed + pids, replacements)
  {
    assert Killed(status, pids).Keys == status.Keys;
  }

  /** Reaping a child that has exited, with or without launching its replacement. */
  lemma ReapKeeps(status: map<Pid, Status>, reaped: set<Pid>, killed: set<Pid>, replacements: seq<(Pid, Pid)>, gone: Pid, pid: Pid)
    requires HistoryFits(status, reaped, killed, replacements)
    requires gone in status && status[gone].Exited? && gone !in reaped && pid !in status
    ensures HistoryFits(status, reaped + {gone}, killed, replacements)
    ensures HistoryFits(status[pid := Alive], reaped + {gone}, killed, replacements + [(gone, pid)])
    ensures HistoryFits(status[pid := Alive], reaped + {gone}, killed, replacements)
  {
  }

  lemma BudgetSame(restart: map<string, RestartMeta>, attempts: map<string, nat>, stops: map<string, seq<nat>>, id: string, meta: RestartMeta)
    requires Budgeted(restart, attempts, stops) && meta.restartCount == Meta(restart, id).restartCount
    ensures Budgeted(restart[id := meta], attempts, stops)
  {
    var restart', attempts', stops' := restart[id := meta], attempts, stops;
    forall i ensures BudgetedFor(restart', attempts', stops', i) {
      assert BudgetedFor(restart, attempts, stops, i);
    }
  }

  /** A stop resets the count and is itself counted. */
  lemma BudgetStop(restart: map<string, RestartMeta>, attempts: map<string, nat>, stops: map<string, seq<nat>>, id: string, meta: RestartMeta)
    requires Budgeted(restart, attempts, stops) && meta.restartCount == 0
    ensures Budgeted(restart[id := meta], attempts, NoteStop(stops, attempts, id))
  {
    var restart', attempts', stops' := restart[id := meta], attempts, NoteStop(stops, attempts, id);
    forall i ensures BudgetedFor(restart', attempts', stops', i) {
      assert BudgetedFor(restart, attempts, stops, i);
    }
  }

  /** An automatic restart raises the count. */
  lemma BudgetAttempt(restart: map<string, RestartMeta>, attempts: map<string, nat>, stops: map<string, seq<nat>>, id: string, meta: RestartMeta)
    requires Budgeted(restart, attempts, stops) && meta.restartCount == Meta(restart, id).restartCount + 1 <= MAX_RESTARTS
    ensures Budgeted(restart[id := meta], Bump(attempts, id), stops)
  {
    var restart', attempts', stops' := restart[id := meta], Bump(attempts, id), stops;
    forall i ensures BudgetedFor(restart', attempts', stops', i) {
      assert BudgetedFor(restart, attempts, stops, i);
    }
  }

  /** Forgetting a child may end a monitor; a launch keeps the child wanted and watched. */
  lemma WatchedKeeps(t: Table, monitors: map<string, nat>, id: string, pid: Pid, meta: RestartMeta)
    requires Watched(t, monitors)
    ensures Watched(t.(cmds := t.cmds - {id}), monitors)
    ensures Watched(t.(cmds := t.cmds - {id}, restart := t.restart[id := meta]), monitors)
    ensures Watched(t.(cmds := t.cmds - {id}, restart := t.restart[id := meta]), Drop(monitors, id))
    ensures meta.desired ==> Watched(t.(cmds := t.cmds[id := pid], restart := t.restart[id := meta]), Bump(monitors, id))
    ensures meta.desired && id in t.cmds ==> Watched(t.(cmds := t.cmds[id := pid], restart := t.restart[id := meta]), monitors)
  {
  }

  /** What reaping an exited child does to the three parts of the invariant it touches. */
  lemma ReapedKeeps(s: System, id: string)
    requires Inv(s) && (id in s.table.cmds ==> s.status[s.table.cmds[id]].Exited?)
    ensures var gone := TrackedBy(s.table, id);
            && Partition(s.table.cmds - {id}, s.status.Keys, s.reaped + gone, s.killed)
            && HistoryFits(s.status, s.reaped + gone, s.killed, s.replacements)
  {
    Forget(s.table.cmds, id, s.status.Keys, s.reaped, s.killed);
  }

  /** The same when a fresh child takes the place. */
  lemma RelaunchedKeeps(s: System, id: string, pid: Pid)
    requires Inv(s) && (id in s.table.cmds ==> s.status[s.table.cmds[id]].Exited?) && pid !in s.status
    ensures var gone := TrackedBy(s.table, id);
            && Partition(s.table.cmds[id := pid], s.status[pid := Alive].Keys, s.reaped + gone, s.killed)
            && HistoryFits(s.status[pid := Alive], s.reaped + gone, s.killed, s.replacements)
            && (id in s.table.cmds ==>
                HistoryFits(s.status[pid := Alive], s.reaped + gone, s.killed, s.replacements + [(s.table.cmds[id], pid)]))
  {
    Replace(s.table.cmds, id, pid, s.status.Keys, s.reaped, s.killed);
    assert s.status[pid := Alive].Keys == s.status.Keys + {pid};
    if id in s.table.cmds { ReapKeeps(s.status, s.reaped, s.killed, s.replacements, s.table.cmds[id], pid); }
  }

  lemma StartedKeeps(s: System, id: string, pid: Pid)
    requires Inv(s) && (id in s.table.cmds ==> s.status[s.table.cmds[id]].Exited?) && pid !in s.status && !s.cancelled
    ensures Inv(s.(table := s.table.(cmds := s.table.cmds[id := pid], restart := Marked(s.table.restart, id, true)),
                   reaped := s.reaped + TrackedBy(s.table, id), status := s.status[pid := Alive], monitors := Bump(s.monitors, id)))
  {
    var meta := Meta(s.table.restart, id).(desired := true);
    RelaunchedKeeps(s, id, pid);
    WatchedKeeps(s.table, s.monitors, id, pid, meta);
    BudgetSame(s.table.restart, s.attempts, s.stops, id, meta);
  }

  lemma StartKeeps(s: System, id: string, launch: Launch)
    requires Inv(s) && Possible(s, launch)
    ensures Inv(NextStart(s, id, launch))
  {
    if !ProcessRunning(s.table, StatusIn(s.status), id) {
      if Known(s.table.generated, id) && launch.Launched? {
        StartedKeeps(s, id, launch.pid);
      } else {
        ReapedKeeps(s, id);
        WatchedKeeps(s.table, s.monitors, id, 0, NO_META);
      }
    }
  }

  lemma StopKeeps(s: System, id: string)
    requires Inv(s)
    ensures Inv(NextStop(s, id))
  {
    var gone := TrackedBy(s.table, id);
    var meta := Meta(s.table.restart, id).(desired := false, restartCount := 0);
    Forget(s.table.cmds, id, s.status.Keys, s.reaped, s.killed);
    KilledKeeps(s.status, s.reaped, s.killed, s.replacements, gone);
    assert Killed(s.status, gone).Keys == s.status.Keys;
    BudgetStop(s.table.restart, s.attempts, s.stops, id, meta);
    WatchedKeeps(s.table, s.monitors, id, 0, meta);
  }

  lemma MonitorKeeps(s: System, id: string, launch: Launch)
    requires Inv(s) && Enabled(s, Monitor(id, launch))
    ensures Inv(NextMonitor(s, id, launch))
  {
    var (t, r) := AfterMonitor(s.table, StatusIn(s.status), id, launch);
    if !r.Leave? && !r.Continue? {
      ReapedKeeps(s, id);
      var meta := t.restart[id];
      var pid := if r.RestartedAs? then r.pid else 0;
      WatchedKeeps(s.table, s.monitors, id, pid, meta);
      if r.GaveUp? {
        BudgetSame(s.table.restart, s.attempts, s.stops, id, meta);
      } else {
        BudgetAttempt(s.table.restart, s.attempts, s.stops, id, meta);
      }
      if r.RestartedAs? { RelaunchedKeeps(s, id, pid); }
    }
  }

  lemma ShutdownKeeps(s: System)
    requires Inv(s) && s.cancelled
    ensures Inv(NextShutdown(s))
  {
    var cmds := s.table.cmds;
    ShutdownNothing(AfterShutdown(s.table));
    KilledKeeps(s.status, s.reaped, s.killed, s.replacements, cmds.Values);
    assert Killed(s.status, cmds.Values).Keys == s.status.Keys;
    ShutdownBudget(s.table, s.attempts, s.stops);
  }

  lemma ShutdownBudget(t: Table, attempts: map<string, nat>, stops: map<string, seq<nat>>)
    requires Budgeted(t.restart, attempts, stops)
    ensures Budgeted(AfterShutdown(t).restart, attempts, stops)
  {
    var restart := AfterShutdown(t).restart;
    forall i ensures BudgetedFor(restart, attempts, stops, i) {
      assert BudgetedFor(t.restart, attempts, stops, i);
    }
  }

  lemma StepKeeps(s: System, e: Event)
    requires Inv(s) && Enabled(s, e)
    ensures Inv(Next(s, e))
  {
    match e
    case Start(id, launch) => StartKeeps(s, id, launch);
    case Stop(id) => StopKeeps(s, id);
    case Monitor(id, launch) => MonitorKeeps(s, id, launch);
    case ShutdownLocked => ShutdownKeeps(s);
    case ChildEnds(pid, how) => assert s.status[pid := how].Keys == s.status.Keys;
    case _ =>
  }

  /** Over every interleaving, from any good state. */
  lemma {:induction false} RunKeeps(s: System, events: seq<Event>)
    requires Inv(s)
    ensures Inv(Run(s, events))
    decreases |events|
  {
    if events != [] {
      if Enabled(s, events[0]) { StepKeeps(s, events[0]); }
      RunKeeps(if Enabled(s, events[0]) then Next(s, events[0]) else s, events[1..]);
    }
  }

  // ----- what follows for every run -----

  /** No live child is lost: whatever has been launched and neither ended nor been killed is in
      the table, wanted, and watched by a monitor. */
  lemma LiveChildrenAreTracked(generated: seq<GeneratedConfig>, events: seq<Event>, pid: Pid)
    requires var s := Run(Boot(generated), events); pid in s.status && s.status[pid] == Alive
    ensures var s := Run(Boot(generated), events);
            exists id :: id in s.table.cmds && s.table.cmds[id] == pid
                         && Meta(s.table.restart, id).desired && Count(s.monitors, id) >= 1
  {
    RunKeeps(Boot(generated), events);
    var s := Run(Boot(generated), events);
    var id :| id in s.table.cmds && s.table.cmds[id] == pid;
  }

  /** However many monitors run, an instance is restarted automatically at most three times per stop, plus
      three; and its restart count is exactly the number of automatic restarts since its last stop. */
  lemma RestartBudget(generated: seq<GeneratedConfig>, events: seq<Event>, id: string)
    ensures var s := Run(Boot(generated), events);
            && Meta(s.table.restart, id).restartCount <= MAX_RESTARTS
            && Count(s.attempts, id) <= MAX_RESTARTS * (1 + |StopsOf(s.stops, id)|)
            && Meta(s.table.restart, id).restartCount == Count(s.attempts, id) - AtLastStop(s.stops, id)
  {
    RunKeeps(Boot(generated), events);
    var s := Run(Boot(generated), events);
    assert BudgetedFor(s.table.restart, s.attempts, s.stops, id);
  }

  /** Each exit leads to at most one automatic launch. */
  lemma OneReplacementPerExit(generated: seq<GeneratedConfig>, events: seq<Event>, i: nat, j: nat)
    requires i < j < |Run(Boot(generated), events).replacements|
    ensures var r := Run(Boot(generated), events).replacements; r[i].0 != r[j].0 && r[i].1 != r[j].1
  {
    RunKeeps(Boot(generated), events);
  }

  lemma StepAfterCancel(s: System, e: Event)
    requires Inv(s) && s.cancelled && Enabled(s, e)
    ensures Next(s, e).cancelled && Next(s, e).status.Keys == s.status.Keys && (s.down ==> Next(s, e).down)
  {
    match e
    case Start(id, launch) =>
    case Stop(id) => assert Killed(s.status, TrackedBy(s.table, id)).Keys == s.status.Keys;
    case ShutdownLocked => assert Killed(s.status, s.table.cmds.Values).Keys == s.status.Keys;
    case ChildEnds(pid, how) => assert s.status[pid := how].Keys == s.status.Keys;
    case _ =>
  }

  /** Once the context is cancelled nothing is launched any more, and once shutdown has finished
      the table stays empty and no child is left alive. */
  lemma {:induction false} ShutdownIsFinal(s: System, events: seq<Event>)
    requires Inv(s) && s.cancelled
    ensures var n := Run(s, events);
            && n.status.Keys == s.status.Keys
            && (s.down ==> n.down && n.table.cmds == map[] && forall p <- n.status :: n.status[p] != Alive)
    decreases |events|
  {
    if events == [] {
      assert s.table.cmds == map[] ==> s.table.cmds.Values == {};
    } else {
      if Enabled(s, events[0]) {
        StepKeeps(s, events[0]);
        StepAfterCancel(s, events[0]);
      }
      ShutdownIsFinal(if Enabled(s, events[0]) then Next(s, events[0]) else s, events[1..]);
    }
  }

  ghost predicate Stuck(s: System, id: string, pid: Pid) {
    id in s.table.cmds && s.table.cmds[id] == pid && pid in s.status && s.status[pid] == Signaled
  }

  lemma StartStuck(s: System, other: string, launch: Launch, id: string, pid: Pid)
    requires Inv(s) && Possible(s, launch) && Stuck(s, id, pid)
    ensures Stuck(NextStart(s, other, launch), id, pid) && NextStart(s, other, launch).attempts == s.attempts
  {
    assert ProcessRunning(s.table, StatusIn(s.status), id);
    var (t, r) := AfterStart(s.table, StatusIn(s.status), other, launch);
    assert other == id ==> r == AlreadyRunning;
    assert r.StartedAs? ==> r.pid != pid;
  }

  /** A monitor leaves every other instance alone. */
  lemma MonitorFrame(t: Table, os: Pid -> Status, other: string, launch: Launch, id: string)
    requires other != id
    ensures var t' := AfterMonitor(t, os, other, launch).0;
            && (id in t'.cmds <==> id in t.cmds) && (id in t.cmds ==> t'.cmds[id] == t.cmds[id])
            && Meta(t'.restart, id) == Meta(t.restart, id)
  {
  }

  lemma MonitorStuck(s: System, other: string, launch: Launch, id: string, pid: Pid)
    requires Inv(s) && Possible(s, launch) && Stuck(s, id, pid)
    ensures Stuck(NextMonitor(s, other, launch), id, pid)
    ensures Count(NextMonitor(s, other, launch).attempts, id) == Count(s.attempts, id)
  {
    var (t, r) := AfterMonitor(s.table, StatusIn(s.status), other, launch);
    if other == id {
      assert r.Leave? || r.Continue?;
    } else {
      MonitorFrame(s.table, StatusIn(s.status), other, launch, id);
      assert Count(Bump(s.attempts, other), id) == Count(s.attempts, id);
      assert r.RestartedAs? ==> r.pid != pid;
    }
  }

  lemma StepStuck(s: System, e: Event, id: string, pid: Pid)
    requires Inv(s) && Enabled(s, e) && Stuck(s, id, pid) && e != Stop(id) && e != ShutdownLocked
    ensures Stuck(Next(s, e), id, pid) && Count(Next(s, e).attempts, id) == Count(s.attempts, id)
  {
    match e
    case Start(other, launch) => StartStuck(s, other, launch, id, pid);
    case Monitor(other, launch) => MonitorStuck(s, other, launch, id, pid);
    case Stop(other) =>
      assert pid !in TrackedBy(s.table, other);
    case _ =>
  }

  /** A child ended by a signal looks like a running one to ProcessState.Exited: until a stop or
      a shutdown it stays in the table, and neither a monitor nor a start replaces it. */
  lemma {:induction false} SignaledChildIsStuck(s: System, events: seq<Event>, id: string, pid: Pid)
    requires Inv(s) && Stuck(s, id, pid)
    requires Stop(id) !in events && ShutdownLocked !in events
    ensures Stuck(Run(s, events), id, pid) && Count(Run(s, events).attempts, id) == Count(s.attempts, id)
    decreases |events|
  {
    if events != [] {
      if Enabled(s, events[0]) {
        StepKeeps(s, events[0]);
        StepStuck(s, events[0], id, pid);
      }
      SignaledChildIsStuck(if Enabled(s, events[0]) then Next(s, events[0]) else s, events[1..], id, pid);
    }
  }

  // ----- when a child that has ended is replaced -----

  /** Other instances are tracked and remembered as before. */
  ghost predicate OthersKept(s: System, n: System, id: string) {
    forall other | other != id ::
      && (other in n.table.cmds <==> other in s.table.cmds)
      && (other in s.table.cmds ==> n.table.cmds[other] == s.table.cmds[other])
      && Meta(n.table.restart, other) == Meta(s.table.restart, other)
  }

  /** One visit of a monitor: the tracked child is taken off exactly when it has exited by itself, and replaced
      exactly when, besides, restarts are left, the instance is still configured and the launch succeeds. */
  lemma OneVisit(s: System, id: string, launch: Launch)
    requires Inv(s) && Enabled(s, Monitor(id, launch)) && id in s.table.cmds
    ensures var pid, n := s.table.cmds[id], Next(s, Monitor(id, launch));
            && (pid in n.reaped <==> s.status[pid].Exited?)
            && n.replacements == s.replacements +
                 (if s.status[pid].Exited? && Meta(s.table.restart, id).restartCount < MAX_RESTARTS
                     && Known(s.table.generated, id) && launch.Launched? then [(pid, launch.pid)] else [])
            && OthersKept(s, n, id)
  {
    assert s.table.cmds[id] in s.table.cmds.Values;
    forall other | other != id { MonitorFrame(s.table, StatusIn(s.status), id, launch, other); }
  }

  /** What the visit leaves of the instance: a child that has not exited is left alone; an exit is recorded; with
      three restarts used the instance is given up; otherwise exactly one more restart is counted, and the table
      holds the new child, or none if there was nothing to launch. */
  lemma OneVisitLeaves(s: System, id: string, launch: Launch)
    requires Inv(s) && Enabled(s, Monitor(id, launch)) && id in s.table.cmds
    ensures var pid, n := s.table.cmds[id], Next(s, Monitor(id, launch));
            var before, after := Meta(s.table.restart, id), Meta(n.table.restart, id);
            if !s.status[pid].Exited? then n == s
            else if before.restartCount >= 3 then
              id !in n.table.cmds && after == RestartMeta(false, before.restartCount, s.status[pid].text)
            else if !Known(s.table.generated, id) then
              id !in n.table.cmds && after == RestartMeta(true, before.restartCount + 1, s.status[pid].text)
            else if launch.LaunchError? then
              id !in n.table.cmds && after == RestartMeta(true, before.restartCount + 1, "restart failed: " + launch.error)
            else
              && id in n.table.cmds && n.table.cmds[id] == launch.pid && n.status[launch.pid] == Alive
              && after == RestartMeta(true, before.restartCount + 1, s.status[pid].text)
  {
    assert s.table.cmds[id] in s.table.cmds.Values;
    assert Meta(s.table.restart, id).desired;
  }

  /** What a start leaves: nothing changes for a child that is not known to have exited; otherwise the table holds
      the new child, wanted, with its restart count as it was, or none if there was nothing to launch. */
  lemma StartLeaves(s: System, id: string, launch: Launch)
    requires Inv(s) && Possible(s, launch)
    ensures var n := Next(s, Start(id, launch));
            var before, after := Meta(s.table.restart, id), Meta(n.table.restart, id);
            if id in s.table.cmds && !s.status[s.table.cmds[id]].Exited? then n == s
            else if Known(s.table.generated, id) && launch.Launched? then
              && id in n.table.cmds && n.table.cmds[id] == launch.pid && n.status[launch.pid] == Alive
              && after == before.(desired := true) && Count(n.monitors, id) == Count(s.monitors, id) + 1
            else id !in n.table.cmds && after == before && n.status == s.status && n.monitors == s.monitors
  {
    if id in s.table.cmds { assert s.table.cmds[id] in s.table.cmds.Values; }
    StartTable(s.table, StatusIn(s.status), id, launch);
    hide AfterStart, Meta, Marked, Inv, Known;
  }

  lemma StartOthers(s: System, id: string, launch: Launch)
    ensures OthersKept(s, Next(s, Start(id, launch)), id)
  {
    StartTable(s.table, StatusIn(s.status), id, launch);
    hide AfterStart, Meta, Marked, Known, TrackedBy, Bump;
  }

  lemma StartTable(t: Table, os: Pid -> Status, id: string, launch: Launch)
    ensures var (n, r) := AfterStart(t, os, id, launch);
            && (if id in t.cmds && !os(t.cmds[id]).Exited? then r == AlreadyRunning
                else if Known(t.generated, id) && launch.Launched? then
                  n.cmds == t.cmds[id := launch.pid] && r == StartedAs(launch.pid)
                  && Meta(n.restart, id) == Meta(t.restart, id).(desired := true)
                else n.cmds == t.cmds - {id} && n.restart == t.restart && (r.NotFound? || r.StartFailed?))
            && (forall other | other != id :: Meta(n.restart, other) == Meta(t.restart, other))
  {
  }

  /** What a stop leaves: no child, nothing wanted, no restart counted, and the tracked child not alive. */
  lemma StopLeaves(s: System, id: string)
    requires Inv(s)
    ensures var n := Next(s, Stop(id));
            && id !in n.table.cmds
            && Meta(n.table.restart, id) == RestartMeta(false, 0, Meta(s.table.restart, id).lastExit)
            && (id in s.table.cmds ==> s.table.cmds[id] in n.killed && n.status[s.table.cmds[id]] != Alive)
            && OthersKept(s, n, id)
  {
    if id in s.table.cmds { assert s.table.cmds[id] in s.table.cmds.Values; }
  }

  /** What a shutdown leaves: no child tracked or alive; whoever had one is not wanted, and keeps the rest. */
  lemma ShutdownLeaves(s: System, id: string)
    requires Inv(s)
    ensures var n := Next(s, ShutdownLocked);
            && n.table.cmds == map[]
            && Meta(n.table.restart, id) ==
                 (if id in s.table.cmds then Meta(s.table.restart, id).(desired := false) else Meta(s.table.restart, id))
            && (id in s.table.cmds ==> s.table.cmds[id] in n.killed && n.status[s.table.cmds[id]] != Alive)
  {
    if id in s.table.cmds { assert s.table.cmds[id] in s.table.cmds.Values; }
  }

  // ----- exactly three -----

  lemma {:induction false} RunConcat(s: System, a: seq<Event>, b: seq<Event>)
    ensures Run(s, a + b) == Run(Run(s, a), b)
    decreases |a|
  {
    if a == [] {
      assert a + b == b;
    } else {
      assert (a + b)[1..] == a[1..] + b;
      RunConcat(if Enabled(s, a[0]) then Next(s, a[0]) else s, a[1..], b);
    }
  }

  /** The instance runs as child `pid`, with so many restarts used. */
  ghost predicate Running(s: System, id: string, pid: Pid, used: nat) {
    && Inv(s) && !s.cancelled && Known(s.table.generated, id)
    && id in s.table.cmds && s.table.cmds[id] == pid && pid in s.status && s.status[pid] == Alive
    && Meta(s.table.restart, id).restartCount == used
  }

  /** The child exits, and a monitor visits with a new process at hand. */
  function ExitAndVisit(id: string, pid: Pid, text: string, heir: Pid): seq<Event> {
    [ChildEnds(pid, Exited(text)), Monitor(id, Launched(heir))]
  }

  /** With fewer than three restarts used the new process takes the place; with three it does not. */
  lemma ExitIsReplaced(s: System, id: string, pid: Pid, used: nat, text: string, heir: Pid)
    requires Running(s, id, pid, used) && heir !in s.status
    ensures var n := Run(s, ExitAndVisit(id, pid, text, heir));
            if used < 3 then
              && Running(n, id, heir, used + 1) && n.replacements == s.replacements + [(pid, heir)]
              && n.status.Keys == s.status.Keys + {heir}
            else
              && id !in n.table.cmds && !Meta(n.table.restart, id).desired && n.replacements == s.replacements
              && n.status.Keys == s.status.Keys
  {
    var end, visit := ChildEnds(pid, Exited(text)), Monitor(id, Launched(heir));
    var ended := Next(s, end);
    StepKeeps(s, end);
    assert ended.status.Keys == s.status.Keys;
    assert Enabled(ended, visit);
    StepKeeps(ended, visit);
    OneVisit(ended, id, Launched(heir));
    OneVisitLeaves(ended, id, Launched(heir));
    VisitStatus(ended, id, heir);
    RunTwo(s, end, visit);
    hide Inv, Enabled, OthersKept;
  }

  lemma VisitStatus(s: System, id: string, heir: Pid)
    ensures var n := Next(s, Monitor(id, Launched(heir)));
            && n.cancelled == s.cancelled && n.table.generated == s.table.generated
            && n.status.Keys == (if n.replacements == s.replacements then s.status.Keys else s.status.Keys + {heir})
  {
    var (t, r) := AfterMonitor(s.table, StatusIn(s.status), id, Launched(heir));
    assert t.generated == s.table.generated && (r.RestartedAs? ==> r.pid == heir);
    assert s.status[heir := Alive].Keys == s.status.Keys + {heir};
    hide AfterMonitor, TrackedBy, Drop, Bump, StatusIn;
    if id in s.table.cmds && r.RestartedAs? {
      assert |s.replacements + [(s.table.cmds[id], r.pid)]| > |s.replacements|;
    }
  }

  /** One exit and visit after another, each with the next new process at hand. */
  function Visits(id: string, pid: Pid, heirs: seq<Pid>, text: string): seq<Event>
    decreases |heirs|
  {
    if heirs == [] then [] else ExitAndVisit(id, pid, text, heirs[0]) + Visits(id, heirs[0], heirs[1..], text)
  }

  function Succession(pid: Pid, heirs: seq<Pid>): (pairs: seq<(Pid, Pid)>)
    ensures |pairs| == |heirs|
    decreases |heirs|
  {
    if heirs == [] then [] else [(pid, heirs[0])] + Succession(heirs[0], heirs[1..])
  }

  ghost predicate Unused(s: System, pids: seq<Pid>) {
    (forall i :: 0 <= i < |pids| ==> pids[i] !in s.status) && forall i, j :: 0 <= i < j < |pids| ==> pids[i] != pids[j]
  }

  /** From s to n each of the heirs took the place of the one before, the last of them running now. */
  ghost predicate HeirsTook(s: System, n: System, id: string, pid: Pid, used: nat, heirs: seq<Pid>) {
    && Running(n, id, if heirs == [] then pid else heirs[|heirs| - 1], used + |heirs|)
    && n.replacements == s.replacements + Succession(pid, heirs)
    && n.status.Keys == s.status.Keys + (set h <- heirs)
  }

  /** As long as restarts are left, every exit is replaced, and each replacement is one more restart. */
  lemma {:induction false} ExitsAreReplaced(s: System, id: string, pid: Pid, used: nat, heirs: seq<Pid>, text: string)
    requires Running(s, id, pid, used) && Unused(s, heirs) && used + |heirs| <= 3
    ensures HeirsTook(s, Run(s, Visits(id, pid, heirs, text)), id, pid, used, heirs)
    decreases |heirs|
  {
    if heirs == [] {
      assert Run(s, []) == s;
      hide Running;
    } else {
      var first, rest := ExitAndVisit(id, pid, text, heirs[0]), heirs[1..];
      assert Visits(id, pid, heirs, text) == first + Visits(id, heirs[0], rest, text);
      hide *;
      UnusedHeirs(s, heirs);
      RunConcat(s, first, Visits(id, heirs[0], rest, text));
      ExitIsReplaced(s, id, pid, used, text, heirs[0]);
      var n := Run(s, first);
      UnusedRest(s, n, heirs);
      ExitsAreReplaced(n, id, heirs[0], used + 1, rest, text);
      HeirsChain(s, n, Run(n, Visits(id, heirs[0], rest, text)), id, pid, used, heirs);
    }
  }

  lemma HeirsChain(s: System, m: System, n: System, id: string, pid: Pid, used: nat, heirs: seq<Pid>)
    requires heirs != [] && HeirsTook(m, n, id, heirs[0], used + 1, heirs[1..])
    requires m.replacements == s.replacements + [(pid, heirs[0])] && m.status.Keys == s.status.Keys + {heirs[0]}
    ensures HeirsTook(s, n, id, pid, used, heirs)
  {
    hide Running;
    HeirSet(heirs);
    assert heirs[1..] != [] ==> heirs[1..][|heirs[1..]| - 1] == heirs[|heirs| - 1];
    assert Succession(pid, heirs) == [(pid, heirs[0])] + Succession(heirs[0], heirs[1..]);
  }

  lemma UnusedHeirs(s: System, heirs: seq<Pid>)
    requires Unused(s, heirs) && heirs != []
    ensures heirs[0] !in s.status
  {
  }

  lemma UnusedRest(s: System, n: System, heirs: seq<Pid>)
    requires Unused(s, heirs) && heirs != [] && n.status.Keys == s.status.Keys + {heirs[0]}
    ensures Unused(n, heirs[1..])
  {
    assert forall i :: 0 <= i < |heirs[1..]| ==> heirs[1..][i] == heirs[i + 1];
  }

  lemma HeirSet(heirs: seq<Pid>)
    requires heirs != []
    ensures (set h <- heirs) == {heirs[0]} + (set h <- heirs[1..])
  {
    assert heirs == [heirs[0]] + heirs[1..];
  }

  /** After a stop and a start exactly three exits are replaced, whatever went before: the fourth gives up. */
  lemma ThreeRestarts(s: System, id: string, pid: Pid, heirs: seq<Pid>, last: Pid, text: string)
    requires Inv(s) && !s.cancelled && Known(s.table.generated, id) && |heirs| == 3
    requires Unused(s, [pid] + heirs + [last])
    ensures var n := Run(s, [Stop(id), Start(id, Launched(pid))] + Visits(id, pid, heirs, text)
                            + ExitAndVisit(id, heirs[2], text, last));
            && n.replacements == s.replacements + Succession(pid, heirs) && |Succession(pid, heirs)| == 3
            && id !in n.table.cmds && !Meta(n.table.restart, id).desired
  {
    var opening, visits := [Stop(id), Start(id, Launched(pid))], Visits(id, pid, heirs, text);
    UnusedParts(s, pid, heirs, last);
    hide *;
    FreshStart(s, id, pid);
    var s0 := Run(s, opening);
    UnusedThen(s, s0, pid, heirs, last);
    ExitsAreReplaced(s0, id, pid, 0, heirs, text);
    var s1 := Run(s0, visits);
    ThreeTook(s0, s1, id, pid, heirs);
    UnusedAfter(s, s1, pid, heirs, last);
    ExitIsReplaced(s1, id, heirs[2], 3, text, last);
    RunConcat(s, opening, visits);
    RunConcat(s, opening + visits, ExitAndVisit(id, heirs[2], text, last));
  }

  lemma UnusedParts(s: System, pid: Pid, heirs: seq<Pid>, last: Pid)
    requires Unused(s, [pid] + heirs + [last])
    ensures pid !in s.status && last !in s.status && last != pid && last !in heirs && pid !in heirs && Unused(s, heirs)
  {
    var all := [pid] + heirs + [last];
    assert all[0] == pid && all[|heirs| + 1] == last && forall i :: 0 <= i < |heirs| ==> all[i + 1] == heirs[i];
  }

  lemma UnusedThen(s: System, n: System, pid: Pid, heirs: seq<Pid>, last: Pid)
    requires Unused(s, heirs) && pid !in heirs && n.status.Keys == s.status.Keys + {pid}
    ensures Unused(n, heirs)
  {
  }

  lemma UnusedAfter(s: System, n: System, pid: Pid, heirs: seq<Pid>, last: Pid)
    requires last !in s.status && last != pid && last !in heirs
    requires n.status.Keys == s.status.Keys + {pid} + (set h <- heirs)
    ensures last !in n.status
  {
  }

  lemma ThreeTook(s: System, n: System, id: string, pid: Pid, heirs: seq<Pid>)
    requires HeirsTook(s, n, id, pid, 0, heirs) && |heirs| == 3
    ensures Running(n, id, heirs[2], 3) && n.replacements == s.replacements + Succession(pid, heirs)
    ensures n.status.Keys == s.status.Keys + (set h <- heirs)
  {
    hide Running;
  }

  lemma FreshStart(s: System, id: string, pid: Pid)
    requires Inv(s) && !s.cancelled && Known(s.table.generated, id) && pid !in s.status
    ensures var n := Run(s, [Stop(id), Start(id, Launched(pid))]);
            Running(n, id, pid, 0) && n.replacements == s.replacements && n.status.Keys == s.status.Keys + {pid}
  {
    var stop, start := Stop(id), Start(id, Launched(pid));
    var stopped := Next(s, stop);
    StepKeeps(s, stop);
    StopLeaves(s, id);
    StopStatus(s, id);
    StepKeeps(stopped, start);
    StartLeaves(stopped, id, Launched(pid));
    StartStatus(stopped, id, pid);
    RunTwo(s, stop, start);
    hide Next, Inv, Meta, OthersKept;
  }

  lemma StopStatus(s: System, id: string)
    ensures var n := Next(s, Stop(id));
            && n.status.Keys == s.status.Keys && n.cancelled == s.cancelled && n.table.generated == s.table.generated
            && n.replacements == s.replacements
  {
    hide Marked;
  }

  lemma StartStatus(s: System, id: string, pid: Pid)
    requires id !in s.table.cmds && Known(s.table.generated, id)
    ensures var n := Next(s, Start(id, Launched(pid)));
            && n.status.Keys == s.status.Keys + {pid} && n.cancelled == s.cancelled
            && n.table.generated == s.table.generated && n.replacements == s.replacements
  {
    hide Marked;
    assert s.status[pid := Alive].Keys == s.status.Keys + {pid};
  }

  lemma RunTwo(s: System, a: Event, b: Event)
    requires Enabled(s, a) && Enabled(Next(s, a), b)
    ensures Run(s, [a, b]) == Next(Next(s, a), b)
  {
    hide Next, Enabled;
    assert [a, b][1..] == [b] && [b][1..] == [];
    assert Run(Next(s, a), [b]) == Run(Next(Next(s, a), b), []);
  }

  /** Some events without a stop of the instance or a shutdown lead to the child being taken off the table. */
  ghost predicate CanBeReaped(s: System, id: string, pid: Pid) {
    exists more: seq<Event> :: Stop(id) !in more && ShutdownLocked !in more && pid in Run(s, more).reaped
  }

  /** Of the tracked children that have ended, in any good state, a monitor can take off exactly those
      that exited by themselves. */
  lemma EndedChildIsReaped(s: System, id: string, pid: Pid)
    requires Inv(s) && id in s.table.cmds && s.table.cmds[id] == pid && s.status[pid] != Alive
    ensures CanBeReaped(s, id, pid) <==> s.status[pid].Exited?
  {
    assert pid in s.table.cmds.Values;
    if s.status[pid].Exited? {
      var visit := Monitor(id, LaunchError(""));
      OneVisit(s, id, LaunchError(""));
      assert [visit][1..] == [];
      assert Run(s, [visit]) == Next(s, visit);
      assert Stop(id) !in [visit] && ShutdownLocked !in [visit];
    } else {
      forall more: seq<Event> | Stop(id) !in more && ShutdownLocked !in more ensures pid !in Run(s, more).reaped {
        SignaledChildIsStuck(s, more, id, pid);
        RunKeeps(s, more);
      }
    }
  }

  /** And a signal does get a child there, from the very start. */
  lemma SignalMakesStuck(generated: seq<GeneratedConfig>, id: string, pid: Pid)
    requires Known(generated, id)
    ensures Stuck(Run(Boot(generated), [Start(id, Launched(pid)), ChildEnds(pid, Signaled)]), id, pid)
  {
    var start, end := Start(id, Launched(pid)), ChildEnds(pid, Signaled);
    var s := Next(Boot(generated), start);
    assert [start, end][1..] == [end] && [end][1..] == [];
    assert Run(Boot(generated), [start, end]) == Run(s, [end]) == Next(s, end);
  }

  ghost predicate Exhausted(s: System, id: string) {
    Meta(s.table.restart, id).restartCount >= MAX_RESTARTS
  }

  lemma MonitorGivesUp(t: Table, os: Pid -> Status, id: string, launch: Launch)
    requires Meta(t.restart, id).restartCount >= MAX_RESTARTS
    ensures var (t', r) := AfterMonitor(t, os, id, launch);
            (r.Leave? || r.Continue? || r.GaveUp?) && Meta(t'.restart, id).restartCount == Meta(t.restart, id).restartCount
  {
  }

  lemma MonitorKeepsCount(t: Table, os: Pid -> Status, other: string, launch: Launch, id: string)
    requires Meta(t.restart, id).restartCount >= MAX_RESTARTS
    ensures var (t', r) := AfterMonitor(t, os, other, launch);
            && Meta(t'.restart, id).restartCount == Meta(t.restart, id).restartCount
            && (other == id ==> r.Leave? || r.Continue? || r.GaveUp?)
  {
    if other == id { MonitorGivesUp(t, os, id, launch); } else { MonitorFrame(t, os, other, launch, id); }
  }

  lemma BumpOther(counts: map<string, nat>, other: string, id: string)
    requires other != id
    ensures Count(Bump(counts, other), id) == Count(counts, id)
  {
  }

  lemma NextMonitorParts(s: System, other: string, launch: Launch)
    ensures var (t, r) := AfterMonitor(s.table, StatusIn(s.status), other, launch);
            var n := NextMonitor(s, other, launch);
            && (n.table == s.table || n.table == t)
            && (n.attempts == s.attempts
                || (n.attempts == Bump(s.attempts, other) && !r.Leave? && !r.Continue? && !r.GaveUp?))
  {
    hide AfterMonitor, Bump, Drop, StatusIn, NextReap;
    var (t, r) := AfterMonitor(s.table, StatusIn(s.status), other, launch);
    if other in s.table.cmds { ReapParts(s, other, t, r); }
  }

  lemma ReapParts(s: System, id: string, t: Table, r: MonitorOutcome)
    requires id in s.table.cmds
    ensures NextReap(s, id, t, r).table == t
    ensures NextReap(s, id, t, r).attempts == if r.GaveUp? then s.attempts else Bump(s.attempts, id)
  {
  }

  lemma MonitorExhausted(s: System, other: string, launch: Launch, id: string)
    requires Exhausted(s, id)
    ensures Exhausted(NextMonitor(s, other, launch), id)
    ensures Count(NextMonitor(s, other, launch).attempts, id) == Count(s.attempts, id)
  {
    hide AfterMonitor, NextMonitor, Meta, Bump, Count, StatusIn;
    NextMonitorParts(s, other, launch);
    MonitorKeepsCount(s.table, StatusIn(s.status), other, launch, id);
    if other != id { BumpOther(s.attempts, other, id); }
  }

  lemma StepExhausted(s: System, e: Event, id: string)
    requires Exhausted(s, id) && e != Stop(id)
    ensures Exhausted(Next(s, e), id) && Count(Next(s, e).attempts, id) == Count(s.attempts, id)
  {
    match e
    case Start(other, launch) =>
      assert Meta(Marked(s.table.restart, other, true), id).restartCount == Meta(s.table.restart, id).restartCount;
    case Monitor(other, launch) => MonitorExhausted(s, other, launch, id);
    case Stop(other) =>
      assert Meta(Marked(s.table.restart, other, false), id) == Meta(s.table.restart, id);
    case _ =>
  }

  /** When the restart count is used up, only a stop brings automatic restarts back: neither a
      new start nor giving up resets it. */
  lemma {:induction false} ExhaustedUntilStopped(s: System, events: seq<Event>, id: string)
    requires Exhausted(s, id) && Stop(id) !in events
    ensures Exhausted(Run(s, events), id) && Count(Run(s, events).attempts, id) == Count(s.attempts, id)
    decreases |events|
  {
    if events != [] {
      StepExhausted(s, events[0], id);
      ExhaustedUntilStopped(if Enabled(s, events[0]) then Next(s, events[0]) else s, events[1..], id);
    }
  }
}
