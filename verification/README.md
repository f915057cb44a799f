# ZoTunnel: a Dafny model of the server, the driver and the dashboard table

ZoTunnel lets a client behind a firewall publish a local HTTP service as `name.domain`. The
client keeps one control connection to the server; the server multiplexes visitors' requests
over it, probes it with heartbeats, and replaces a session when the same name connects again.

The project models that behaviour and proves it over every interleaving, schedule or input:

- `Registry.dfy`, `Sessions.dfy`, `Handler.dfy`: the name-to-session map as mutable classes, and any
  number of connection handlers running over it as a transition system whose steps are the code's
  atomic steps (drawing a session id and inserting are two of them; an abort is a request that
  lands later).
- `Driver.dfy`, `YamuxDriver.dfy`, `DriverTime.dfy`: the yamux driver's select loop as a state
  machine over everything its environment may do, the imperative loop proved to follow it, and the
  same machine under a clock, where the heartbeat constants have to fit together.
- `Lifecycles.dfy`: handlers and drivers together. Each handler owns a whole driver loop, so why a
  driver ends is derived from what handlers do to each other.
- `RouteFiles.dfy`: handlers together with the directory their routes go to.
- `Headers.dfy`, `RateLimiter.dfy`, `Routing.dfy`, `Accounting.dfy`, `Proxy.dfy`: a proxied request from its Host
  header's bytes through the limiter and the registry to its six exits, and the gauges it shares with all
  concurrent requests and with sessions that are replaced underneath it.
- `Frames.dfy`, `Streams.dfy`: the control channel's frames under arbitrary chunking, and the
  marker that separates probes from visitors' requests inside a session.
- `Table.dfy`: the dashboard's row reconciliation as an in-place list algorithm over row objects.
- `Dashboard.dfy`, `Traefik.dfy`, `Versions.dfy`: login cookies and the lazily evicting session
  store, route files, and release comparison.
- `Wrappers.dfy`, `Counting.dfy`, `Text.dfy`: shared helpers.

`dafny verify dfyconfig.toml` checks the whole project.

Runs are sequences of actions, events or calls; `Run(t)` is `None` when some step could not have
happened, so a statement about `Run(t) == Some(s)` is a statement about every reachable state.
Times are nanoseconds. 64-bit counters wrap; results about them say how many increments they
cover. The classes are proved against the functions the runs are made of.

Where the code and its own words disagree, the model follows the code:

- `README.md:113` says a client's route file is removed when it disconnects. The code keeps it
  (`RouteFiles.FilesOutliveSessions`, `ConnectionHandler.HandleClient`).
- `crates/zo-tunnel-server/src/registry.rs:111` accepts any name that is not reserved, though some
  can never be visited: names outside visible ASCII, with a colon, or empty
  (`Routing.ReachableNames`, `Routing.RegisteredYetUnreachable`).
- `crates/zo-tunnel-server/src/traefik.rs:203` gives each name a file of its own only among names
  free of unsafe characters; otherwise two live sessions can share one
  (`RouteFiles.LiveSessionsCanShareAFile`).
- `crates/zo-tunnel-protocol/src/self_update.rs:106` calls its argument semantic versions. A dotted
  pre-release is compared by its own number (`Versions.DottedSuffixReplacesPatch`).
- `crates/zo-tunnel-server/src/metrics.rs:61` calls the limiter a sliding window. Its windows are
  fixed and start at a request, so one second can see `2 * max - 1` admissions
  (`RateLimiter.IntervalBoundIsTight`).
- `crates/zo-tunnel-server/src/server.rs:492-498` tells the client it is authenticated before the
  registry may refuse a reserved name (`Sessions.ToldOkThenRefused`).
- `crates/zo-tunnel-protocol/src/lib.rs:41-43` presents the 90 s stale limit as matching the
  five-miss disconnect. That holds exactly when heartbeat streams open in under five seconds
  (`DriverTime.NeverStaleIffStreamsOpenPromptly`).
- `crates/zo-tunnel-protocol/src/lib.rs:203-206` checks the payload limit after truncating the
  length to 32 bits (`Frames.ReadsBackIffWithinLimit`, `Frames.FourGigabyteErrorIsMisread`).

## Model

| member | source | states |
|---|---|---|
| Registry.Registry.Register | crates/zo-tunnel-server/src/registry.rs:101-143 | refuses exactly the reserved names and then changes nothing; otherwise the fresh entry takes the name, `replaced` tells whether it was held, only the previous owner's driver is asked to stop |
| Registry.Registry.Insert | crates/zo-tunnel-server/src/registry.rs:130-142 | the map becomes the session map's `Inserted`, the previous handle is aborted and every other handle is untouched |
| Registry.Registry.Unregister | crates/zo-tunnel-server/src/registry.rs:146-150 | removes the name only while this session id still holds it, reports which, and leaves all other entries |
| Registry.ClientEntry.IsAlive | crates/zo-tunnel-server/src/registry.rs:36-49 | never with a closed channel; without heartbeats exactly when last heard of under 90 s ago; with heartbeats exactly when that and fewer than two misses |
| ConnectionHandler.HandleClient | crates/zo-tunnel-server/src/server.rs:457-585 | an undisturbed handler is rejected if and only if no AuthReq came or its token is wrong, and then changes nothing; a reserved name is refused; any other finishes, only after its driver's loop, run under any schedule that ends it, has ended, and leaves the name free, the route file written and the previous owner told to stop |
| Sessions.StepKeepsInv | crates/zo-tunnel-server/src/server.rs:516-582 | every atomic step of every handler and driver preserves the invariant tying handlers, drivers, session ids and map entries together |
| Sessions.LiveSessionsAreTheMap | crates/zo-tunnel-server/src/registry.rs:118-150 | in every interleaving a registered session with a running, unaborted driver is exactly its name's map entry; at most one per name; no reserved name; the map is empty once all handlers are done |
| Sessions.SessionIdsAreUnique | crates/zo-tunnel-server/src/registry.rs:118 | no two handlers ever hold the same session id, up to 2^64 draws |
| Sessions.LastInserterWins | crates/zo-tunnel-server/src/registry.rs:130-155 | the map agrees, name by name, with the run's last inserter that has not unregistered itself |
| Sessions.RegistrationsAreConserved | crates/zo-tunnel-server/src/registry.rs:130-150 | registrations = entries present + takeovers + unregisters that removed |
| Sessions.SessionsLeaveOnce | crates/zo-tunnel-server/src/server.rs:567-582 | a session that entered the map is in it or left it exactly once; its own unregister returns false exactly when it had been evicted |
| Sessions.AbortedExactlyByTakeover | crates/zo-tunnel-server/src/registry.rs:131-137 | while a handler is registered it has been evicted exactly when it is not the map's entry; only an evicted session's driver is asked to stop, and an evicted one's no longer runs freely |
| Sessions.NewcomerAlwaysTakesOver | crates/zo-tunnel-server/src/registry.rs:98-100 | from any reachable state a newcomer gets any unreserved name in five of its own steps; the old running driver is asked to stop and no other handler changes |
| Sessions.SmallerSessionIdCanReplaceLarger | crates/zo-tunnel-server/src/registry.rs:118-140 | a reachable run in which session 1 replaces session 2, since drawing and inserting are separate steps |
| Sessions.WaitingHandlersCanLeave | crates/zo-tunnel-server/src/server.rs:565-582 | in every reachable state a waiting handler whose driver has ended can unregister; it reports whether its entry was still there, which is whether it was never evicted, and changes no other handler or entry |
| Sessions.NewcomerCanLeave | crates/zo-tunnel-server/src/server.rs:571 | from any reachable state a newcomer can run to the end, removing its own entry |
| Sessions.ReplacedHandlerCanLeave | crates/zo-tunnel-server/src/server.rs:571-582 | and a handler whose name a newcomer took can run to the end, reporting that and leaving the newcomer registered |
| Sessions.ToldOkThenRefused | crates/zo-tunnel-server/src/server.rs:492-498 | a run in which a reserved name receives a successful AuthRes and is then refused with its driver aborted |
| Sessions.RefusedIffReserved | crates/zo-tunnel-server/src/server.rs:550-554 | among handlers past registration, the refused ones are exactly those with reserved names; they are never in the map and their driver does not keep running |
| RouteFiles.FilesAreTheLastWrites | crates/zo-tunnel-server/src/traefik.rs:120-151 | over every interleaving a name's file exists if and only if it was there at the start or a session sanitised alike wrote one; it holds the name's own route if and only if the last of those writers had that name; unwritten files are as they were |
| RouteFiles.SessionKeepsItsRouteIff | crates/zo-tunnel-server/src/server.rs:556-563 | a session that wrote its route still serves its own host if and only if the last writer to its file had its name, hence always when all names are free of unsafe characters |
| RouteFiles.FilesOutliveSessions | crates/zo-tunnel-server/src/server.rs:567-582 | once every handler is done no name is registered, yet no file that ever existed is gone |
| RouteFiles.LiveSessionsCanShareAFile | crates/zo-tunnel-server/src/traefik.rs:203-213 | for any two unreserved names sanitised alike, a run with both sessions live in which the later writer's route has replaced the other's |
| DriverModel.StepKeepsInv | crates/zo-tunnel-server/src/server.rs:121-256 | every select arm, probe, sender and abort preserves the driver's request, stream, probe, miss and ending invariants |
| DriverModel.RequestsResolveOnceInOrder | crates/zo-tunnel-server/src/server.rs:39-49 | at any moment every accepted request is in exactly one place (answered, dropped, being opened, queued), answers come in acceptance order, and none waits once the loop has ended |
| DriverModel.HistoryIsFinal | crates/zo-tunnel-server/src/server.rs:153-206 | answers, drops, outcomes and the way the loop ended never change later |
| DriverModel.WaitingRequestsCanBeAnswered | crates/zo-tunnel-server/src/server.rs:208-214 | from every reachable state of a running loop, while yamux opens streams, all pending and queued requests get theirs, in order |
| DriverModel.QueueIsBounded | crates/zo-tunnel-server/src/server.rs:102 | at most 64 requests wait |
| DriverModel.RoomForRequests | crates/zo-tunnel-server/src/server.rs:39-45 | a running loop with a handle left takes any request while fewer wait |
| DriverModel.RequestsNeedHandles | crates/zo-tunnel-server/src/server.rs:33-46 | once every handle is gone no request is accepted and no handle comes back |
| DriverModel.OpenedStreamsAreUsed | crates/zo-tunnel-server/src/server.rs:152-182 | streams opened = successful replies attempted + probes spawned |
| DriverModel.AtMostOneProbe | crates/zo-tunnel-server/src/server.rs:116-119 | the in-flight flag means exactly one probe is running or reporting, never together with a wanted one; the result channel holds at most one; ticks = outcomes + the one pending; none without heartbeat support |
| DriverModel.MissesAndEndings | crates/zo-tunnel-server/src/server.rs:183-252 | the counter is the trailing run of failures, below five while running and five exactly when the peer is declared dead; an abort ends the loop only if requested, the closed command channel only once every handle is gone, the result channel never |
| DriverModel.OutcomesAreReports | crates/zo-tunnel-server/src/server.rs:160-231 | the outcomes counted, with the one not yet taken, are exactly what the probes reported, in order, and a failure for each probe that got no stream, read off the events |
| DriverModel.AnsweringPeerIsNeverMissed | crates/zo-tunnel-server/src/server.rs:225-231 | a peer that answers every probe, where every stream opens, has no misses and is never declared dead |
| Lifecycles.EndingsOfSessions | crates/zo-tunnel-server/src/server.rs:518-571 | in every run of all handlers with their drivers, a session's driver was asked to stop if and only if another registration took its name, at most once; its loop ends only by that abort, by yamux or at the fifth miss, never because handles are gone; the handler unregisters only after the loop has ended |
| Lifecycles.AbortedSessionsWereReplaced | crates/zo-tunnel-server/src/server.rs:567-582 | a session whose driver ended by abort finds at unregister that it has been replaced |
| Lifecycles.RunningLoopsAreTheMap | crates/zo-tunnel-server/src/registry.rs:130-140 | a driver still in its loop belongs to its name's map entry if and only if its handler is registered and nobody asked it to stop |
| Lifecycles.DriversRunTheLoop | crates/zo-tunnel-server/src/server.rs:518-525 | every handler's driver is in a state of some run of the select loop, so the results about those runs hold of it |
| Lifecycles.LoopsAreNotHeldBack | crates/zo-tunnel-server/src/server.rs:121-257 | whatever a driver's loop can do alone it can do beside the handlers, so the combination excludes none of its runs |
| Lifecycles.RefusedDriverCanSeeHandlesGone | crates/zo-tunnel-server/src/server.rs:550-554 | for every reserved name, a run in which the refused handler's driver leaves by the closed-command arm before the abort lands |
| YamuxDriver.Driver.OutboundStream | crates/zo-tunnel-server/src/server.rs:152-182 | a pending request is served before a wanted probe, and each clears only its own flag |
| YamuxDriver.Driver.OutboundFailed | crates/zo-tunnel-server/src/server.rs:183-206 | a failed open answers the pending request and also counts as a miss when a probe was wanted |
| YamuxDriver.Driver.Drive | crates/zo-tunnel-server/src/server.rs:121-257 | the loop's state after any schedule is the model's state for the part consumed, and it stops early only because it broke out |
| DriverTime.AdvanceKeepsGrid | crates/zo-tunnel-server/src/server.rs:110-114 | with stream opens within 5 s, ticks stay on the 15 s grid counted from the last successful probe's tick, one step per miss |
| DriverTime.SilenceIsDetected | crates/zo-tunnel-protocol/src/lib.rs:30-43 | past 40 s + delay after the last successful tick two misses are recorded; a running driver is never older than 85 s + delay |
| DriverTime.TimeIsNeverStuck | crates/zo-tunnel-server/src/server.rs:124-254 | whenever time may not pass, a due event is enabled, so the bounds are not vacuous |
| DriverTime.VerdictIsTheMissCount | crates/zo-tunnel-server/src/registry.rs:36-49 | for opens under 5 s the liveness verdict on a running heartbeat session is the miss count alone |
| DriverTime.AnsweringPeerStaysAlive | crates/zo-tunnel-server/src/registry.rs:36-49 | under the clock such a peer was last heard of at most 25 s + delay ago and is shown alive as long as its driver runs |
| DriverTime.TakeoverBoundIsTight | crates/zo-tunnel-server/src/server.rs:160-179 | for every delay up to 5 s some run has one recorded miss 40 s + delay after the last successful tick |
| DriverTime.DisconnectBoundIsTight | crates/zo-tunnel-server/src/server.rs:160-179 | for every delay up to 5 s some run attains 85 s + delay |
| DriverTime.TrafficDoesNotHideSilence | crates/zo-tunnel-server/src/registry.rs:36-49 | a session may have answered a visitor this instant and yet be shown dead, because its probes went unanswered |
| DriverTime.NeverStaleIffStreamsOpenPromptly | crates/zo-tunnel-protocol/src/lib.rs:41-43 | the wall-clock fallback can never fire on a running heartbeat session if and only if streams open in under 5 s |
| RateLimiter.Limiter.Check | crates/zo-tunnel-server/src/metrics.rs:76-94 | decides and updates the key's window as the specification function does, leaving other keys alone |
| RateLimiter.AtMostInterval | crates/zo-tunnel-server/src/metrics.rs:84-93 | any n seconds admit at most (n + 1) * max - 1 requests of a key |
| RateLimiter.IntervalBoundIsTight | crates/zo-tunnel-server/src/metrics.rs:84-93 | for every limit and every n a run attains that bound |
| RateLimiter.SparseRequestsAreAdmitted | crates/zo-tunnel-server/src/metrics.rs:84-92 | a request that finds fewer than the limit of its key within the last second is admitted |
| RateLimiter.ZeroAdmitsAll | crates/zo-tunnel-server/src/metrics.rs:77-79 | a limit of zero admits every request |
| RateLimiter.KeysAreIndependent | crates/zo-tunnel-server/src/metrics.rs:81-82 | on the shared map each key is decided as if it were alone |
| RateLimiter.RequestsPerKeyAreBounded | crates/zo-tunnel-server/src/metrics.rs:76-94 | the bound for any interleaving of keys on a non-decreasing clock |
| Headers.ReadsAsTextIff | crates/zo-tunnel-server/src/proxy.rs:35 | a header value reads as text if and only if every byte is visible ASCII, a space or a tab |
| Routing.RoutesOnlyToOwnHost | crates/zo-tunnel-server/src/proxy.rs:34-49 | a header routes to a name if and only if it reads as text whose port-stripped form is that non-empty name under the domain |
| Routing.OwnHostsAreTheDashboards | crates/zo-tunnel-server/src/server.rs:641-660 | a request stays with the server if and only if its header's text is the domain or its dashboard host, with or without a port; any other goes to the proxy |
| Routing.OwnHostsAreServed | crates/zo-tunnel-server/src/server.rs:654-657 | the bytes of the domain and of its dashboard host, with or without a port, are served there |
| Routing.ReachableNames | crates/zo-tunnel-server/src/server.rs:641-660 | some header is proxied to a name if and only if the name is non-empty, not `dashboard`, does not start with white space and, like the domain, is free of colons and reads as text |
| Routing.RegisteredYetUnreachable | crates/zo-tunnel-server/src/registry.rs:111 | from every reachable state any unreserved name outside those gets a live session, and no header reaches it |
| Routing.AccentedNameIsUnreachable | crates/zo-tunnel-server/src/proxy.rs:35 | a name of one accented letter is such a name |
| Routing.HostReachesCurrentSession | crates/zo-tunnel-server/src/proxy.rs:95-128 | in every reachable server state the bytes of a registered addressable name's host, with or without port, are proxied and look up the session that inserted last |
| Accounting.StepKeepsInv | crates/zo-tunnel-server/src/proxy.rs:92-249 | every counter update, exit, takeover and removal keeps each counter equal to the number of requests that hold it |
| Accounting.GaugesAgree | crates/zo-tunnel-server/src/proxy.rs:139-249 | active_connections and the sum of active_streams over all session records ever created differ only by requests between their two updates |
| Accounting.GaugesCountRequestsInFlight | crates/zo-tunnel-server/src/proxy.rs:139-249 | between updates both gauges equal the requests in flight; both are zero when all have finished |
| Accounting.NoUnderflow | crates/zo-tunnel-server/src/proxy.rs:150-154 | no decrement happens at zero, even on the record of a replaced session |
| Accounting.RequestsAreConserved | crates/zo-tunnel-server/src/proxy.rs:92-144 | total = unrouted + rate limited + not found + sum of per-session requests + not yet classified |
| Accounting.RequestsFollowTheRun | crates/zo-tunnel-server/src/proxy.rs:94-136 | read off the run alone: a request is rate limited exactly when the limiter said so, unrouted exactly when its host gave no name, and counts on the last session to have registered its name, and not unregistered, when it looked |
| Accounting.StagesFollowTheRun | crates/zo-tunnel-server/src/proxy.rs:147-249 | read off the run alone: no stage is skipped or repeated, a failed request stopped at the stage it had got to, a served one passed all |
| Accounting.AnyStageCanEnd | crates/zo-tunnel-server/src/proxy.rs:138-251 | from every reachable state a newcomer to a name with a session can be served by it or fail at any one stage |
| Accounting.EarlyExitsCanHappen | crates/zo-tunnel-server/src/proxy.rs:94-136 | and a newcomer can be refused by the limiter, find no session or have no route |
| Proxy.WhatEndsARequest | crates/zo-tunnel-server/src/proxy.rs:147-249 | which wires are served and which end in each failure |
| Proxy.Forward | crates/zo-tunnel-server/src/proxy.rs:138-251 | the first failing stage decides the exit, both gauges are restored on every exit, and only a served request touches the session |
| Proxy.HandleProxyRequest | crates/zo-tunnel-server/src/proxy.rs:85-269 | outcome, counters and limiter windows from host, limiter and registry: exactly the addressed name's window is used, exactly the addressed, admitted session is tallied, all others are untouched |
| Frames.FrameReadsBack | crates/zo-tunnel-protocol/src/lib.rs:202-267 | a frame followed by anything reads back as its message and leaves what followed |
| Frames.ReadsBackIffWithinLimit | crates/zo-tunnel-protocol/src/lib.rs:203-212 | a frame the writer agrees to write reads back if and only if its payload is within 16 MiB, because the check sees a truncated length |
| Frames.OversizedFrameIsMisread | crates/zo-tunnel-protocol/src/lib.rs:203-212 | what reading makes of a frame with a truncated length: the first bytes decoded as the message, the rest taken for later frames |
| Frames.FourGigabyteErrorIsMisread | crates/zo-tunnel-protocol/src/lib.rs:203-212 | an error text encoded in 2^32 bytes is written with length zero and reads as an empty text followed by 2^32 stray bytes |
| Frames.StreamReadsBack | crates/zo-tunnel-protocol/src/lib.rs:226-267 | reading a stream of frames returns the same messages with nothing left |
| Frames.ReadsExactlyFrames | crates/zo-tunnel-protocol/src/lib.rs:226-267 | a message is read exactly from version 1, its type, a length within 16 MiB, that many bytes that decode to it, and what is left |
| Frames.VerdictsAreFinal | crates/zo-tunnel-protocol/src/lib.rs:226-267 | any verdict but an unexpected end stands whatever arrives later |
| Frames.ProperPrefixYieldsNothing | crates/zo-tunnel-protocol/src/lib.rs:226-264 | a proper prefix of a frame yields only end of stream |
| Frames.CutStreamYieldsWholeMessages | crates/zo-tunnel-protocol/src/lib.rs:226-267 | a stream cut at any byte yields exactly the messages that arrived whole |
| Frames.ControlPayloadIsIgnored | crates/zo-tunnel-protocol/src/lib.rs:191-193 | a ping, pong or close frame with any payload is accepted and leaves what follows; re-encoding gives the bytes read if and only if the payload was empty |
| Frames.Reader.ReadExact | crates/zo-tunnel-protocol/src/lib.rs:228-232 | fills the buffer with the next bytes however they are chunked, or fails when the stream is shorter |
| Frames.Reader.ReadMessage | crates/zo-tunnel-protocol/src/lib.rs:226-267 | result and remaining bytes depend only on the concatenation of the chunks |
| Frames.Reader.ReadMessages | crates/zo-tunnel-protocol/src/lib.rs:226-267 | repeatedly reading a chunked stream yields exactly the messages of the concatenated bytes, and the error is the one found there |
| Streams.ServeStream | crates/zo-tunnel-client/src/client.rs:196-241 | under any chunking the stream is echoed or its bytes are forwarded in order; what was delivered and what is still unread are together the bytes after the mark, and with a round per chunk all are delivered |
| Streams.StreamsStaySeparate | crates/zo-tunnel-client/src/client.rs:195-241 | over any interleaving of any number of streams no probe byte reaches the local service, only probes are echoed, and a visitor's stream has delivered exactly the bytes read after the mark, in order |
| Streams.StreamsFollowTheRun | crates/zo-tunnel-client/src/client.rs:195-241 | read off the run alone: which streams are probes, which marks were read and echoed, and that a visitor's stream delivered as much of its body as was copied, once the local service took the connection |
| Streams.ConnectedStreamsCanFinish | crates/zo-tunnel-client/src/client.rs:239 | whatever else goes on, a connected visitor's stream can deliver all that was written to it |
| Streams.ProbesCanBeEchoed | crates/zo-tunnel-client/src/client.rs:203-213 | from every reachable state a new probe can be echoed, whatever the other streams are doing |
| Streams.VisitsCanBeDelivered | crates/zo-tunnel-client/src/client.rs:214-241 | and any body can be delivered whole on a new stream |
| Streams.MarkersSeparateStreams | crates/zo-tunnel-client/src/client.rs:203-220 | for a client that sends a version, probes are echoed and never forwarded, requests are never echoed and deliver a prefix of exactly the bytes after the mark |
| Streams.IntactIffMarked | crates/zo-tunnel-server/src/proxy.rs:163-181 | at a marker-reading client a request arrives intact if and only if the server marked it or it is empty; unmarked it loses its first byte, or is echoed whole when that byte is a probe's |
| Table.Body.InsertBefore | web/app.js:213-216 | the reference row keeps its place, the inserted row moves if it was already a child |
| Table.Body.PlaceNext | web/app.js:202-218 | one iteration puts the client's old or new row next and keeps all rows accounted for |
| Table.Body.Refresh | web/app.js:173-224 | rows become exactly the client list or the placeholder, a client shown before keeps its row object, and with n leading ids unchanged at most the remaining rows are inserted |
| Table.Body.RefreshAll | web/app.js:140-224 | after any sequence of refreshes the table shows the last list and clients present in every response keep their rows |
| Table.PlaceMoves | web/app.js:213-217 | inserting a row before the first unplaced row moves it there and changes nothing else |
| Cookies.ExtractSessionId | crates/zo-tunnel-server/src/dashboard.rs:92-104 | the parsing loop finds what the recursive search finds in the header's text, and nothing in a header that is not text |
| Cookies.FoundIffFirst | crates/zo-tunnel-server/src/dashboard.rs:94-103 | an id is found if and only if it is non-empty and its part is the first that is not another name or an empty session cookie |
| Cookies.TrimTakesOffBlanks | crates/zo-tunnel-server/src/dashboard.rs:95 | trimming takes spaces and tabs off both ends and nothing else |
| Cookies.SessionCookieIsFound | crates/zo-tunnel-server/src/dashboard.rs:92-104 | in a cookie-string of section 4.2.1 of RFC 6265, unless an earlier name starts alike, the session value is found if and only if all the cookies read as text |
| Cookies.SessionCookieAttributes | crates/zo-tunnel-server/src/dashboard.rs:106-115 | the pair and every attribute a browser reads in the login header, Max-Age being the time to live and Secure standing exactly under TLS |
| Cookies.ClearCookieAttributes | crates/zo-tunnel-server/src/dashboard.rs:117-122 | the logout header empties the cookie and expires it at once |
| Logins.SessionStore.Validate | crates/zo-tunnel-server/src/dashboard.rs:44-53 | accepts exactly stored ids younger than the time to live and evicts an expired one |
| Logins.SessionStore.IsAuthenticated | crates/zo-tunnel-server/src/dashboard.rs:124-132 | with authentication on, exactly the requests whose cookie names an accepted session; at most that session is evicted |
| Logins.SessionStore.ApiLogin | crates/zo-tunnel-server/src/dashboard.rs:167-228 | a visitor already let in gets no second session; otherwise a right token creates one and sends its cookie |
| Logins.SessionStore.ApiLogout | crates/zo-tunnel-server/src/dashboard.rs:244-261 | removes exactly the session carried and clears the cookie |
| Logins.ValidateAnswersTheHistory | crates/zo-tunnel-server/src/dashboard.rs:33-57 | the lazily evicting store answers as the history does: created, not invalidated since, and before creation plus time to live |
| Logins.RequestsAnsweredByLogins | crates/zo-tunnel-server/src/dashboard.rs:124-261 | after any sequence of visits, logins and logouts a request is let in exactly when the session it carries was logged in, not logged out since, and is not past its time to live |
| Logins.LoginLastsUntilExpiry | crates/zo-tunnel-server/src/dashboard.rs:92-132 | with the stored cookie among the browser's and until logout, a request's header bytes authenticate it if and only if the session is young enough and all the cookies read as text |
| Logins.AccentedSiblingHidesLogin | crates/zo-tunnel-server/src/dashboard.rs:93 | one cookie with an accented letter hides a fresh login |
| Traefik.TraefikManager.AddClientRoute | crates/zo-tunnel-server/src/traefik.rs:120-151 | skipping an identical rewrite leaves the directory an unconditional write would, and writes only on change |
| Traefik.TraefikManager.CleanupLegacyRoutes | crates/zo-tunnel-server/src/traefik.rs:171-190 | removes exactly the legacy files |
| Traefik.ClientRouteSays | crates/zo-tunnel-server/src/traefik.rs:120-138 | a client's file routes exactly its own host, through the configured entry point and resolver, to the shared service |
| Traefik.StaticHosts | crates/zo-tunnel-server/src/traefik.rs:83-112 | the base file routes exactly the dashboard host and the bare domain |
| Traefik.StaticEntries | crates/zo-tunnel-server/src/traefik.rs:83-112 | both through the configured entry point and resolver |
| Traefik.StaticTargets | crates/zo-tunnel-server/src/traefik.rs:83-112 | both to the shared service, whose URL it gives |
| Traefik.ServiceIsDefined | crates/zo-tunnel-server/src/traefik.rs:106-111 | the service that every router names is the one the base file defines |
| Traefik.FilesHoldLastRoute | crates/zo-tunnel-server/src/traefik.rs:83-151 | over any run a client's file survives and holds the route last added under its sanitised name |
| Traefik.BaseFileSurvives | crates/zo-tunnel-server/src/traefik.rs:83-118 | once written the base file stays as written |
| Traefik.FileServesOwnHostIffLast | crates/zo-tunnel-server/src/traefik.rs:120-151 | a client's file holds its own route if and only if it was the last added among ids sanitised alike |
| Traefik.CleanIdsNeverCollide | crates/zo-tunnel-server/src/traefik.rs:203-213 | if no id needs sanitising every added client keeps exactly its own route |
| Traefik.SafeCharacters | crates/zo-tunnel-server/src/traefik.rs:205-211 | ASCII letters, digits, hyphen and underscore are kept, everything else becomes an underscore |
| Traefik.LegacyFiles | crates/zo-tunnel-server/src/traefik.rs:181-185 | leftovers are exactly the files `zo-` something `.yml` that are neither a tunnel's nor `zo-static.yml` |
| Traefik.SanitizeIsIdempotent | crates/zo-tunnel-server/src/traefik.rs:203-213 | sanitising twice changes nothing; the fixed points are the ids of safe characters |
| Traefik.WhichIdsCollide | crates/zo-tunnel-server/src/traefik.rs:203-213 | two ids share a file if and only if they differ only where both have an underscore or an unsafe character |
| Versions.NewerIffGreater | crates/zo-tunnel-protocol/src/self_update.rs:108-119 | on printed 32-bit triples, with or without a leading v, the comparison is strict lexicographic order |
| Versions.NumeralsAre32Bit | crates/zo-tunnel-protocol/src/self_update.rs:111 | a printed number, with or without a plus sign, is a part exactly when it fits 32 bits |
| Versions.MissingPartsAreZero | crates/zo-tunnel-protocol/src/self_update.rs:112-116 | a missing minor or patch counts as zero |
| Versions.TextIsOldest | crates/zo-tunnel-protocol/src/self_update.rs:111-118 | text without a numeral piece is newer than nothing printed and older than all but 0.0.0 |
| Versions.ParseDotted | crates/zo-tunnel-protocol/src/self_update.rs:109-117 | whatever follows the minor, the version compared has as patch the first numeral piece there, or zero |
| Versions.FirstNumeralDecides | crates/zo-tunnel-protocol/src/self_update.rs:111-118 | against a version with the same major and minor a release is newer if and only if the first numeral piece after its minor exists and exceeds the patch |
| Versions.UndottedSuffixHidesPatch | crates/zo-tunnel-protocol/src/self_update.rs:111-112 | with an undotted non-numeral patch a release is never newer than a printed version with its major and minor |
| Versions.DottedSuffixReplacesPatch | crates/zo-tunnel-protocol/src/self_update.rs:111-112 | a dotted pre-release number stands in for the patch |
| Versions.CandidateOfPatchThree | crates/zo-tunnel-protocol/src/self_update.rs:111-118 | `1.2.3-rc.1` is newer than `1.2.0` and not newer than `1.2.2` |
| Versions.StrictWeakOrder | crates/zo-tunnel-protocol/src/self_update.rs:118 | on arbitrary strings, from the order on triples: irreflexive, transitive, and two strings tie if and only if they parse alike |

## Left out

- Sockets, TLS, TCP keepalive, hyper, axum, yamux and tokio internals: their results are events or parameters; a header is the bytes hyper hands over, without surrounding white space.
- JSON, UTF-8 and YAML: payload encodings are an abstract pair with decode after encode the identity; route files are the code's text, not parsed.
- Token comparison, configuration, the login endpoint's token check and TLS detection: only their boolean result appears.
- Request futures dropped when a visitor disconnects mid-request: the decrements would be skipped, so accounting is for handlers that run to completion.
- Byte counters, response bodies, status codes and log lines.
- Clock readings that go backwards between concurrent callers, and timer slack of a few milliseconds.
- File operations that fail, except that a failed route write is a step of its own and is taken to leave the directory as it was; and `remove_client`, which nothing calls.
- The client's reconnect backoff, cancellation and status channel; installers, upgrade, uninstall, downloads, styling and the rest of the page script.
- Traefik.ClientRouteSays: ids and configured values that fit on one line; a line break in one would end its line in the file.
- Sessions.SessionIdsAreUnique: stated for fewer than 2^64 draws, after which the counter wraps.
- Table.Body.Refresh: client ids are distinct and non-empty, as the keys of the server's map; ids that name built-in properties of script objects are not modelled.
- DriverTime.SilenceIsDetected: scheduling is prompt and heartbeat streams open or fail within 5 s; slower opens shift the tick grid.
- Lifecycles.EndingsOfSessions: the other holders of a handle, requests in flight and the map entry, come and go freely rather than with particular requests.
- YamuxDriver.Driver.Drive: channels, probe tasks and handle counts are a value the environment's steps replace, not separate tasks.
- Streams.ServeStream: one direction, server to local service; the reply direction is the same copy.
- Streams.StreamsStaySeparate: for a server that knows its client sent a version; without one it opens no probes and writes no marks.
