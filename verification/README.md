# VEGM: a model of the emulator, its supervisor and its fleet pipeline

VEGM emulates gaming machines (EGMs) that speak G2S XML to a host, and a supervisor launches many of them
from one fleet manifest. This project models the parts of both that carry state machines, protocols and
transformations, and proves what they keep over every input and every run.

| file | models |
|---|---|
| `Text.dfy` | the string operations the rest stands on: trimming, decimal numbers, separators, sorted keys |
| `Template.dfy` | template substitution: repeated whole-text replacement against one simultaneous substitution |
| `Envelope.dfy` | the G2S/SOAP envelope parser as a stack machine over XML tokens (SOAP 1.1 section 4, SOAP 1.2 Part 1 section 5) |
| `Renderer.dfy` | the schema-shaped and the legacy rendering of requests, and that the parser undoes both |
| `Shapes.dfy` | the shapes a message may come in, whatever their spelling and attributes, and what the parser makes of each |
| `Requests.dfy` | what each of the four requests says under its literal names, rendered either way and parsed |
| `SessionEngine.dfy` | the session engine: its loops, the language of its traces, its heartbeat |
| `Scheduler.dfy` | the outbound scheduler: ownership of its worker, its counters, the spacing of its attempts |
| `Supervisor.dfy` | start, stop, shutdown and any number of monitors of child processes, over all interleavings |
| `Config.dfy` | the runtime configuration and its validator, which fills in defaults as it goes |
| `Fleet.dfy` | the fleet manifest and its validation |
| `Resolve.dfy` | layered resolution, port allocation, collision checks through formatted keys |
| `Generate.dfy` | generated runtime configs, and the composition of fleet and runtime |
| `FleetExamples.dfy` | two small fleets that show what resolution misses and what it rejects without need |
| `Evidence.dfy` | payload file names, what is read back from them, and request/response pairing |
| `Wire.dfy` | commands over the wire and injected commands, their effects and responses |

Code that changes state in place is a class or a method with loops, each proved equal to a function of its
inputs or old state; the properties are lemmas about those functions. Concurrency is a state machine whose
steps are the source's locked regions. What lies outside (hosts, clocks, cancellation, process exits, directory
listings, XML text) enters as parameters or events that may take any value.

Some properties one would expect do not hold of the code. Each is given by counterexamples and by the exact
condition under which it holds:

* Values that form another name's placeholder make the result of template substitution depend on map order
  (`OrderMattersForBracedValues`). Every selection and order of bindings substitutes simultaneously exactly when the
  bindings are clear (`ClearExactly`), and the two orders of two bindings agree exactly then (`OrdersAgreeExactly`).
* A schema rendering is recovered by the parser exactly for operations that are not structural element names
  (`XSDRoundTrip`).
* The legacy renderers write identifiers and namespaces without any escaping, unlike the schema renderer. A legacy
  request is recovered exactly when its identifiers are trimmed and lex to themselves (no `<`, `&` or carriage return,
  no `]]>`, only XML characters) and its SOAP namespace is supported as read (`LegacyRequestRoundTrip`).
* With wrapped responses accepted, what a `g2sResponse` wraps makes no difference (`AckAccepted`).
* A child ended by a signal counts as running (`SignalMakesStuck`, `SignaledChildIsStuck`). Of the tracked children that
  have ended, a monitor can take off exactly those that exited by themselves (`EndedChildIsReaped`, `OneVisit`).
* Two different EGM endpoints may have one collision key, exactly when one host straddles the other endpoint
  (`EGMKeysEqual`), and a valid fleet is rejected for it (`EGMKeyAmbiguous`).
* A fleet that resolves may still give two instances one control address, exactly when one's explicit control
  port is the other's allocated one (`ControlBindCollision`, `SharedControlBind`).
* A payload can pass the filter of a direction it was not written in, exactly when its operation spells the
  marker out (`DirectionFilter`, `DirectionFilterFooled`).
* A request is matched to a response by type exactly when one was written under the request's own operation
  (`PlainPairing`); the session engine writes replies under other names, so its requests never are
  (`EnginePairsByFallback`).

## Model

| member | source | states |
|---|---|---|
| Text.SortStrings | runtime/render.go:11-15 | sorting a map's keys gives the one increasing sequence of them, whatever order they were met in |
| Template.ReplaceEachIsSimultaneous | runtime/render.go:16-24 | on a plain template, replacing clear bindings one after another over the whole text, in any selection and order, equals one simultaneous substitution |
| Template.ClearExactly | runtime/render.go:9-26 | every selection and order of a set of bindings is simultaneous on every plain template exactly when the set is clear: no two values of other names form a name's placeholder, or start to, unless that name's value is its own placeholder |
| Template.OrderIrrelevant | runtime/render.go:19-24 | any two iteration orders of the same clear bindings give the same text |
| Template.OrdersAgreeExactly | runtime/render.go:19-24 | the two orders of two bindings agree on every plain template exactly when neither value, written twice, forms the other's placeholder or starts to, unless the other's value is that placeholder |
| Template.PlainIsClear | runtime/render.go:16-24 | values without an opening brace are always clear |
| Template.OrderMattersForBracedValues | runtime/render.go:19-24 | for every pair of names there are values with braces for which two iteration orders give different texts |
| Template.ReplaceSorted | runtime/render.go:11-18 | the namespace loop, keys sorted, applies exactly the namespace bindings |
| Template.ReplaceUnordered | runtime/render.go:19-24 | the request and state loops apply exactly their bindings, in any order the map yields |
| Template.RenderTemplate | runtime/render.go:9-26 | for clear values every bound placeholder of a plain template shows its value from the three maps, every unknown one stays verbatim, everything else is unchanged; for all values it is the replacement of the namespaces in key order, then of the request fields, then of the state in some order |
| Envelope.ParseG2SEnvelope | runtime/soap_parser.go:48-170 | the token loop over a mutable stack and message computes the run of the stack machine, its errors included |
| Envelope.StepKeeps | runtime/soap_parser.go:63-162 | each token keeps: class, operation or open g2sBody implies a known root; body implies envelope; identity fields write-once; an operation changes only to g2sAck |
| Envelope.RunKeeps | runtime/soap_parser.go:53-162 | the same over every token stream from every such state |
| Envelope.FallbackNeverFires | runtime/soap_parser.go:163-169 | a document parses exactly when its run succeeds and names an operation, and then the legacy fallback changes nothing |
| Shapes.ClassExactly | runtime/soap_parser.go:109-183 | in a g2sMessage the class element is the class and the element inside it the operation exactly when the class, lower-cased, is one of the 24 listed names; otherwise the class element is itself the operation, with no class |
| Shapes.MessageShape | runtime/soap_parser.go:85-129 | all that a g2sMessage with any spelling and attributes parses to: kind, root, class, operation, identity, session, fields |
| Shapes.BodyShape | runtime/soap_parser.go:90-129 | the same for a bare g2sBody |
| Shapes.AckShape | runtime/soap_parser.go:100-108 | a bare g2sAck parses to the operation g2sAck with its identity and fields |
| Shapes.SoapMessageShape | runtime/soap_parser.go:73-129 | the same message inside a SOAP envelope and body, of SOAP 1.1, 1.2 or no namespace |
| Shapes.SoapRun | runtime/soap_parser.go:73-84 | an envelope is entered exactly for those three namespaces and refused for every other |
| Shapes.SoapOperationShape | runtime/soap_parser.go:130-139 | an operation straight inside a SOAP body is a legacy message with its identity and session from its attributes |
| Shapes.FirstAttr | runtime/soap_parser.go:198-205 | of attributes with one local name the first gives the identity |
| Shapes.LastAttr | runtime/soap_parser.go:192-196 | and the last the field; other fields stay |
| Shapes.TextFills | runtime/soap_parser.go:140-156 | which field and which identity text fills, aliases and blank text included |
| Renderer.WriteXMLAttrs | runtime/g2s_xsd_renderer.go:41-57 | the non-empty attributes with non-empty names, once each, in sorted order |
| Renderer.RenderedAttrs | runtime/g2s_xsd_renderer.go:41-57 | an attribute is written exactly when it has a name and a value, and names increase |
| Renderer.RenderXSDCommunicationsMessage | runtime/g2s_xsd_renderer.go:19-39 | the tokens of the g2sMessage, g2sBody, communications and operation elements with their attributes |
| Renderer.XSDRoundTrip | runtime/g2s_xsd_renderer.go:19-57 | parsing a schema rendering gives back root kind, class, operation, host, EGM, time, session and the body attributes overridden by the operation's, if and only if the operation is non-empty and not Envelope, g2sMessage, g2sBody or g2sAck |
| Renderer.XSDRequestRoundTrip | runtime/session_startup_exchange.go:113-136 | each of the four requests of the engine is recovered from its schema rendering |
| Requests.SchemaRequests | runtime/session_engine.go:155-165 | what each of the four requests says in schema mode: its name, identity and every attribute with its literal value |
| Renderer.LegacyParse | runtime/session_engine.go:166-168 | whatever XML reader reads it, a legacy rendering parses to its operation and the trimmed, non-empty texts of fields that lex to themselves, and fails when its start tags cannot be read or name an unsupported SOAP namespace |
| Renderer.LegacyRequestRoundTrip | runtime/session_startup_exchange.go:113-136 | each of the four requests is recovered with host, EGM and session from its unescaped legacy rendering if and only if the start tags can be read with a supported SOAP namespace and each identifier is trimmed and lexes to itself |
| Requests.LegacyRequests | runtime/session_startup_exchange.go:127-136 | what each of the four requests says in legacy mode: its name, namespaces or their defaults, the three identifiers, and the heartbeat interval in setKeepAlive alone |
| Renderer.UnescapedIsLost | runtime/session_startup_exchange.go:122-124 | an identifier that needed escaping is never recovered together with the others |
| SessionEngine.AckAccepted | runtime/ack_resolver.go:4-18 | an acknowledgement is accepted exactly when it has the expected name, or is a g2sResponse and those are accepted |
| SessionEngine.AcknowledgedExactly | runtime/session_engine.go:125-136 | a request is acknowledged exactly by a reply with a status in 200..299 and a body that parses, whose operation is the named acknowledgement of that request, or g2sResponse where wrapping is accepted |
| SessionEngine.FailureTells | runtime/session_engine.go:111-136 | every other reply fails for the first thing wrong with it: transport, status, parsing, or the operation found |
| SessionEngine.AcknowledgedLeaves | runtime/session_engine.go:137-149 | every field an acknowledged request writes, per operation |
| SessionEngine.Engine.RunOnce | runtime/session_engine.go:100-153 | one exchange: acknowledged exactly when the reply grants it, and the state fields written only then |
| SessionEngine.Engine.RunCommsOnlineOnce | runtime/session_engine.go:100-153 | opening a session: one step of the machine, with a fresh session id, or none without a host URL |
| SessionEngine.Engine.RecordFailure | runtime/session_engine.go:79-86 | which state fields a failure writes, by how far the session had come |
| SessionEngine.Engine.BeatOnce | runtime/session_keepalive.go:11-59 | a heartbeat is one step of the machine, ending in a wait or a reconnect |
| SessionEngine.Engine.RunKeepAliveLoop | runtime/session_engine.go:55-77 | the loop follows the machine from the first heartbeat to a lost one or cancellation |
| SessionEngine.Engine.RunStartupExchange | runtime/session_startup_exchange.go:11-19 | getDescriptor then setKeepAlive follow the machine, stopping at the first failure |
| SessionEngine.Engine.SessionEngineLoop | runtime/session_engine.go:18-53 | the engine's loops end in exactly the machine's state and trace, for every sequence of replies, clock readings and cancellations |
| SessionEngine.RunLanguage | runtime/session_engine.go:18-77 | every trace is a series of full cycles C+ D+ S+ K+* K-, then at most one unfinished or failed session, each under one session id |
| SessionEngine.RunLanguageExact | runtime/session_engine.go:18-77 | those traces, with session ids the engine can mint, are exactly the traces of the engine over all hosts, clocks and cancellations |
| SessionEngine.RunMoment | runtime/session_keepalive.go:11-59 | at every moment: a session after the first opens right after a lost heartbeat, everything else follows a success of its session, and the heartbeat is healthy exactly when the last exchange was an acknowledged heartbeat |
| SessionEngine.RunReplies | runtime/session_engine.go:18-153 | over every run there is one exchange per reply, in order, recorded as acknowledged exactly when that reply grants it |
| SessionEngine.SessionIDsDiffer | runtime/session_engine.go:104-104 | sessions opened at different times have different ids |
| SessionEngine.NoHostNoExchange | runtime/session_engine.go:100-103 | without a host URL nothing is ever exchanged, and the failure is recorded |
| SessionEngine.RunFits | runtime/session_engine.go:18-153 | at every moment session, connection and heartbeat state, whether there is a last error, and the last message, command, session and host are what the last exchange alone determines |
| Scheduler.Server.SchedulerConfig | runtime/scheduler.go:24-39 | the normalized settings |
| Scheduler.Server.StartOutboundScheduler | runtime/scheduler.go:41-61 | starts a worker exactly when enabled, targeted and none is current, by the step the interleaving model uses; counters and failure run are kept |
| Scheduler.Server.TakeCancel | runtime/scheduler.go:63-75 | takes the cancel function away and clears running, only if there is one, by the step the interleaving model uses |
| Scheduler.Server.RunOutboundSchedulerTick | runtime/scheduler.go:93-118 | a tick sends what `TickSends` says, and leaves what `ResultLeaves` says |
| Scheduler.TickSends | runtime/scheduler.go:93-118 | keepAlive exactly when running and online, or running, due and beating while idle; commsOnLine exactly when running, not online, due and not beating while idle; due is no attempt yet or none within the given interval, or 2000 ms |
| Scheduler.Server.UpdateSchedulerAfterResult | runtime/scheduler.go:120-165 | the counters, session and heartbeat state after a result |
| Scheduler.ResultLeaves | runtime/scheduler.go:120-165 | every field a result leaves, against the threshold as given, or 2 |
| Scheduler.NormalizedSettings | runtime/scheduler.go:24-39 | the defaults 5000, 2000 and 2, and opening forced unless beating while idle |
| Scheduler.ControlLeaves | runtime/scheduler.go:41-75 | every field a start and a stop leave |
| Scheduler.SendsAreCounted | runtime/scheduler.go:93-165 | over every run each send adds one attempt of its own kind, nothing else does, and every opening is logged |
| Scheduler.OpeningThenBeat | runtime/scheduler.go:93-165 | after an acknowledged opening the next tick sends a heartbeat, whenever it comes |
| Scheduler.OwnershipHolds | runtime/scheduler.go:41-75 | over every interleaving of starts, stops and sends each worker is exactly one of current, taken by one stop, or cancelled; running holds exactly when there is a current one; live workers number at most one more than the stops in progress |
| Scheduler.CountersHold | runtime/scheduler.go:120-165 | over any mix of results, starts and stops the failure count is the longest all-failure suffix, the attempt counts add up to the results, and the heartbeat is exactly what that suffix says: healthy after a success, degraded from the threshold on, until then as it was before the failures |
| Scheduler.LongestFailingSuffixUnique | runtime/scheduler.go:120-165 | that suffix length is unique |
| Scheduler.OpensAreSpaced | runtime/scheduler.go:93-118 | with one worker and a monotone clock session openings start at least the normalized interval apart, so a window W holds at most 1 + W / interval of them |
| Scheduler.IdleBeatsNeverOpen | runtime/scheduler.go:93-118 | a scheduler that beats while idle never opens a session |
| Supervisor.SupervisorServer.MarkDesired | cmd/vegm-supervisor/restart_policy.go:17-27 | only withdrawing an instance resets its restart count |
| Supervisor.SupervisorServer.GeneratedByID | cmd/vegm-supervisor/server.go:280-287 | finds a config with the id exactly when there is one |
| Supervisor.SupervisorServer.StartOne | cmd/vegm-supervisor/server.go:245-264 | the table after a start, in each of its four outcomes |
| Supervisor.SupervisorServer.StopOne | cmd/vegm-supervisor/server.go:266-278 | the table after a stop, and the process killed |
| Supervisor.SupervisorServer.MonitorChild | cmd/vegm-supervisor/restart_policy.go:36-81 | one locked iteration of a monitor, in each of its six outcomes |
| Supervisor.SupervisorServer.Shutdown | cmd/vegm-supervisor/server.go:289-304 | every child is killed and withdrawn, in any map order |
| Supervisor.StepKeeps | cmd/vegm-supervisor/restart_policy.go:36-81 | every step of any thread or child keeps the invariant |
| Supervisor.RunKeeps | cmd/vegm-supervisor/server.go:245-304 | over all interleavings each launched process is exactly one of tracked, seen exited or killed; tracked ones are desired and monitored; budgets hold |
| Supervisor.LiveChildrenAreTracked | cmd/vegm-supervisor/server.go:245-278 | every live child that was not killed is in the table, desired and monitored |
| Supervisor.RestartBudget | cmd/vegm-supervisor/restart_policy.go:55-63 | the restart count is exactly the automatic restarts since the last stop; it never exceeds 3, and they never exceed 3 times one plus the stops, however many monitors run |
| Supervisor.OneReplacementPerExit | cmd/vegm-supervisor/restart_policy.go:50-79 | no exit is replaced twice |
| Supervisor.ShutdownIsFinal | cmd/vegm-supervisor/server.go:289-304 | after cancellation nothing is launched, and after shutdown the table stays empty with no child alive |
| Supervisor.SignaledChildIsStuck | cmd/vegm-supervisor/restart_policy.go:50-53 | over every run without a stop or shutdown a child ended by a signal stays tracked and unreplaced |
| Supervisor.EndedChildIsReaped | cmd/vegm-supervisor/restart_policy.go:50-79 | of the tracked children that have ended, exactly those that exited by themselves can be taken off without a stop or shutdown |
| Supervisor.OneVisit | cmd/vegm-supervisor/restart_policy.go:36-81 | one visit of a monitor takes the child off exactly when it exited by itself, and replaces it exactly when besides fewer than 3 restarts are used, the instance is configured and the launch succeeds |
| Supervisor.OneVisitLeaves | cmd/vegm-supervisor/restart_policy.go:36-81 | the table, count and exit text one visit leaves in each case: three restarts used gives up, else the count grows by one |
| Supervisor.StartLeaves | cmd/vegm-supervisor/server.go:245-264 | what a start leaves in each case, the restart count kept |
| Supervisor.StopLeaves | cmd/vegm-supervisor/server.go:266-278 | a stop leaves no child, nothing wanted and a restart count of zero, and touches no other instance |
| Supervisor.ShutdownLeaves | cmd/vegm-supervisor/server.go:289-304 | a shutdown leaves no child tracked or alive |
| Supervisor.ExitsAreReplaced | cmd/vegm-supervisor/restart_policy.go:55-79 | while restarts are left every exit is replaced and counted once |
| Supervisor.ThreeRestarts | cmd/vegm-supervisor/restart_policy.go:55-62 | from every reachable state, after a stop and a start exactly three exits are replaced and the fourth gives up |
| Supervisor.SignalMakesStuck | cmd/vegm-supervisor/restart_policy.go:83-85 | a start followed by a signal reaches that state from the beginning |
| Supervisor.ExhaustedUntilStopped | cmd/vegm-supervisor/restart_policy.go:55-61 | once restarts are used up, only a stop brings them back |
| Config.RuntimeConfig.ApplyEndpointDefaults | runtime/config.go:197-220 | the endpoint's five defaults, in order, and the outbound target's |
| Config.RuntimeConfig.ApplyG2SXMLDefaults | runtime/config.go:222-232 | the XML defaults |
| Config.RuntimeConfig.ApplySessionEngineDefaults | runtime/config.go:249-259 | the timer defaults |
| Config.RuntimeConfig.ValidateConfig | runtime/config.go:117-195 | the settings left behind and the first problem met, defaults filled before a failure included |
| Config.ValidateIdempotent | runtime/config.go:117-259 | validating an accepted config again succeeds and changes no field |
| Config.ValidateAccepts | runtime/config.go:117-298 | a config is accepted exactly when it meets a condition on its fields as given, before any defaulting |
| Config.ReportsFirst | runtime/config.go:117-298 | the problem reported is the first, in source order, that the config as given has; none exactly when it has none |
| Config.FilledSoFar | runtime/config.go:117-259 | every default filled in by the time validation stops or accepts, by how far it came |
| Config.NothingElseFilled | runtime/config.go:117-259 | and nothing else changes |
| Config.AcceptedKeepsGiven | runtime/config.go:117-220 | what was given is kept, and listener and endpoint default to each other's host and port |
| Config.AcceptedFills | runtime/config.go:197-259 | the constants an accepted config has where nothing was given |
| Fleet.ValidateEndpoint | fleet/validate.go:118-131 | adds exactly the complaints of a bad scheme, port or path, at the place given |
| Fleet.ValidateHostEndpoint | fleet/validate.go:133-151 | adds exactly the complaint of a non-empty bad URL |
| Fleet.ValidateManifest | fleet/validate.go:12-116 | which complaints there are, by place and topic, and none exactly when the manifest is valid |
| Fleet.HeaderComplaints | fleet/validate.go:17-52 | when the whole manifest is complained of, topic by topic |
| Fleet.ProfileComplaints | fleet/validate.go:34-47 | when a profile is, topic by topic |
| Fleet.GroupComplaints | fleet/validate.go:48-60 | when a group is |
| Fleet.InstanceComplaints | fleet/validate.go:66-95 | when an instance is for what it says itself |
| Fleet.DuplicateComplaints | fleet/validate.go:66-110 | and for an id or port an earlier one has |
| Fleet.ValidUnblamed | fleet/validate.go:12-116 | there is nothing to complain of exactly when every layer is well formed, every reference resolves, and ids and explicit ports are pairwise distinct |
| Fleet.SeenIsRepeated | fleet/validate.go:59-110 | the seen-maps tell exactly which ids and explicit ports an instance repeats of the ones before it |
| Resolve.MergeEndpointMonoid | fleet/resolve.go:211-229 | merging endpoints is associative with the empty endpoint as identity |
| Resolve.BindKeyInjective | fleet/resolve.go:31-35 | host:port keys are equal exactly when hosts and ports are |
| Resolve.EGMKeysEqual | fleet/resolve.go:41-41 | endpoint keys are equal exactly for the same scheme, host, port and path, or when one host swallows the other's host, port and start of path |
| FleetExamples.EGMKeyAmbiguous | fleet/resolve.go:41-44 | a valid manifest that is rejected for its endpoint keys although its two instances differ in both ports and in endpoint host, port and path |
| Resolve.ValidateResolvedInstances | fleet/resolve.go:26-48 | accepts exactly when the three key families are pairwise distinct; otherwise names the first instance that repeats a key, the first family in which it does, and the earlier owner |
| Resolve.ValidInstanceResolves | fleet/resolve.go:72-75 | a valid manifest never meets the missing-pack-file error |
| Resolve.ResolveInstances | fleet/resolve.go:8-24 | succeeds exactly when the manifest is valid and its keys are distinct, with every instance's layered settings in order; else fails with the exact complaints or the first clash |
| Resolve.PrecedencesAgree | fleet/resolve.go:50-94 | the endpoint port is the wire port, the endpoint bind address the listen host, and the host id the validator's, each exactly when the instance's own setting does not override a different merged one |
| Resolve.LayersOverride | fleet/resolve.go:65-131 | field by field the instance's value overrides its profile's and that the defaults' |
| Resolve.ResolvesExactly | fleet/resolve.go:8-48 | a fleet resolves exactly when it is valid and its addresses, not only its keys, are pairwise apart |
| Resolve.AllocatedKeysApart | fleet/resolve.go:54-64 | with no explicit port in any layer, wire and control ports are base plus index and their keys never collide |
| Resolve.AllocatedFleetResolves | fleet/resolve.go:50-104 | such a fleet of any size resolves, if its hosts hold no slash |
| Generate.GenerateConfigs | fleet/generate.go:19-122 | one config per instance, in order, exactly when the manifest resolves; each field of each config is traced to the instance, its profile, the defaults or a constant |
| Generate.ConfigFromManifest | fleet/generate.go:31-118 | for every instance: ids, host, endpoint, XML settings, listener, trust and certificates, log directory, storage, control address, pack file, engine, notes and path from the layers that give them |
| Generate.ConfigInjective | fleet/generate.go:31-110 | different instances never get equal configs: every modelled setting reaches the config |
| Generate.ControlBindsByPort | fleet/generate.go:32-32 | control addresses are equal exactly when control ports are, whatever the listen hosts |
| Generate.ControlBindCollision | fleet/generate.go:32-32 | in a resolved fleet two control addresses are equal exactly when one's explicit port is the other's allocated one, and then the listen hosts differ |
| FleetExamples.SharedControlBind | fleet/generate.go:32-32 | a resolved fleet in which that happens |
| Generate.Pipeline | fleet/generate.go:31-110 | the runtime accepts a config generated from a resolved manifest exactly when its endpoint port is in 1..65535 and XML mode, storage backend and trust mode with its files are supported |
| Generate.PipelineSettles | runtime/config.go:117-259 | on such a config the runtime's defaulting changes nothing but the outbound target and the timers of a disabled engine |
| Evidence.SanitizeFilePart | runtime/logger.go:364-378 | unknown for the empty name, else each character that is not a letter or digit becomes an underscore |
| Evidence.SanitizeSettles | runtime/logger.go:364-378 | sanitized names are non-empty and fixed by sanitizing; alphanumeric names are kept |
| Evidence.NameRoundTrip | runtime/evidence_latest.go:267-278 | the type read back from the name written for an operation is the sanitized operation, for every direction and operation |
| Evidence.DirectionFilter | runtime/evidence_latest.go:196-198 | the direction filter passes a written name exactly when that direction was written or the operation spells the marker |
| Evidence.DirectionFilterExact | runtime/logger.go:143-148 | for alphanumeric operations the filter is exact |
| Evidence.DirectionFilterFooled | runtime/evidence_latest.go:196-198 | every direction passes for every other one under some operation |
| Evidence.SortNewestFirst | runtime/evidence_latest.go:204-208 | the same files, newest first |
| Evidence.LatestPayloadForMessageType | runtime/evidence_latest.go:182-239 | a matching file of maximal modification time, or none exactly when nothing matches |
| Evidence.FallbackNeverMatches | runtime/evidence_latest.go:104-136 | on a fixed listing a response has the request's type exactly when a matching strategy chose it |
| Evidence.PairedLatestResponse | runtime/evidence_latest.go:104-149 | which file is paired by which strategy, the matched and stale flags, the age and the exact warnings |
| Evidence.MillisTruncates | runtime/evidence_latest.go:143-143 | the age is truncated towards zero to milliseconds |
| Evidence.WrittenMatches | runtime/evidence_latest.go:191-203 | a lookup sees a plainly written file exactly for the direction and type it was written with |
| Evidence.PlainPairing | runtime/evidence_latest.go:104-136 | among plainly written files the latest request is matched exactly when a response was written under its own operation, an outbound one first |
| Evidence.PlainResponse | runtime/evidence_latest.go:104-129 | among plainly written files the response is the newest one under the request's operation, outbound before inbound, then the newest outbound one, then the newest inbound one |
| Evidence.EnginePairsByFallback | runtime/session_keepalive.go:13-31 | among the session engine's own files the latest request is never matched by type |
| Wire.HostAllowedLocked | runtime/wire_restore.go:90-108 | allowed when registration is open, when the first registration of the host is enabled, or, with no registrations, when listed |
| Wire.FirstRegistrationDecides | runtime/wire_restore.go:90-108 | who is allowed, registration by registration |
| Wire.Server.ApplyStateUpdatesLocked | runtime/control_restore.go:203-231 | only string values of the seven known keys take effect, and an empty update does nothing |
| Wire.Server.HandleWire | runtime/wire_restore.go:35-82 | which of the three outcomes it is, the state and the response; the response is rendered from the state left behind, with the previous status |
| Wire.Server.ProcessSimulatedInbound | runtime/control_ui.go:92-129 | the same for an injected command, whose failure leaves no trace |
| Wire.CommandRead | runtime/wire_restore.go:35-37 | the field spellings a command's identities are read from, in order, and their defaults |
| Wire.AcceptedSettings | runtime/wire_restore.go:63-66 | the six settings an accepted command leaves: its pack entry's, over its operation's |
| Wire.AcceptedLeaves | runtime/wire_restore.go:55-73 | the connection, transition, trace, error and status it leaves |
| Wire.RejectedTexts | runtime/wire_restore.go:40-52 | the error text of a rejected command, the host checked first |
| Wire.RejectedLeavesOnlyError | runtime/wire_restore.go:39-50 | a rejected wire message changes only the last error, a rejected injection nothing |
| Wire.LastWriteWins | runtime/wire_restore.go:52-66 | after any mixture of wire and injected commands each setting is the last value an accepted command wrote, and who is allowed has not changed |
| Wire.SettingsQuoted | runtime/control_restore.go:233-252 | a template quotes each of the six settings under its own name |
| Wire.StateQuoted | runtime/control_restore.go:233-252 | all sixteen entries a template can quote |
| Wire.PathsAgree | runtime/control_ui.go:92-116 | for commands of allowed hosts the six settings do not depend on which path each command took |
| Wire.ResponsesAgree | runtime/wire_restore.go:67-68 | over two runs of the same commands of allowed hosts on any mix of paths, each response of a template that does not quote the connection state is the same |

## Left out

- HTTP, TLS, certificates, file and SQLite I/O, JSON coding and process launching are oracles: what they answer is a parameter or an event.
- XML text: documents and renderings are token sequences; lexing, escaping, attribute-name prefixes and the regular-expression fallbacks of runtime/xmlutil.go are not modelled.
- Unicode case folding beyond ASCII, the long s and the Kelvin sign (and dotted capital I for lower-casing) is not modelled; strings are sequences of characters, not bytes.
- URL parsing and `filepath.Join` are parameters of the fleet and config models; the pipeline asks only that a join of non-empty parts is non-empty.
- Durations, ports and counters are unbounded integers; the source's 64-bit overflow and the saturation of time differences are not modelled.
- `removeFleetInstance` re-locks between its stop and its delete and `updateInstanceSettings` checks no collisions; neither is part of the supervisor or fleet model.
- Pass-through manifest fields (labels, DNS, masks, gateways, overlays, heartbeat, state and fault overrides) and the notes that only repeat them are not modelled; no check reads them.
- Pack summaries, overlay merging, log filtering, schemas, scripts and the user interface are left out as easy or non-code members.
- Supervisor.RunKeeps: assumes of os/exec that a cancelled context makes every later start fail and that a kill ends a live child.
- Scheduler.OpensAreSpaced: one worker, whose tick and result are one step; ticks of a second worker overlapping after a stop and a start are not covered.
- SessionEngine.RunMoment: the engine is the only writer of the heartbeat; other handlers and packs may write any string.
- Template.ReplaceEachIsSimultaneous: state values are taken as already formatted strings.
- Fleet.ValidateManifest: the wording, order and repetition of the complaints are not modelled, only where each points and what it is about.
- Renderer.LegacyParse: says nothing of field texts that do not lex to themselves beyond what LegacyRequestRoundTrip and UnescapedIsLost say of the identifiers.
- Renderer.LegacyRequestRoundTrip: an XML reader is any that reads plain content as it stands and gets only shorter or plain texts out of other content; content is read element by element, so markup in an identifier or namespace that stays open past its own element or attribute is taken to be a syntax error.
- Renderer.XSDRoundTrip: `xml.EscapeText` is taken to be undone by reading, which leaves out that it replaces characters XML does not allow.
- Template.ClearExactly: about templates whose literal text holds no opening brace.
- Generate.GenerateConfigs: failures to make the directory or write a file are I/O, and the notes that only repeat an unmodelled or modelled field are left out.
- Generate.ConfigInjective: covers the fields of an instance that the model has.
- Evidence.PlainPairing: about alphanumeric operations and directions of two words, which are all the program writes except for what a message itself names.
- Evidence.LatestPayloadForMessageType: the content, size and parse of the file read are not modelled.
- Evidence.SortNewestFirst: the library sort is modelled by an insertion sort on values; ties are left open, as they are by the library.
- Wire.Server.HandleWire: starts from the parsed message; the quoting of special characters in error texts is not modelled.
