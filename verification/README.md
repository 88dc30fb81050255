# Pangolin Kubernetes controller: a verified model

The controller polls Pangolin for a Traefik configuration, rewrites it into Kubernetes-safe objects,
applies them and collects what is left over. This project models that pipeline in Dafny and proves what
it guarantees over all inputs and all runs.

| file | what it models |
|---|---|
| `Values.dfy` | JSON documents, results, substrings, sorted key lists |
| `Names.dfy` | the resource name sanitiser |
| `Ports.dfy` | a port printed into a name, sanitised and parsed back |
| `Protocols.dfy` | TCP and UDP transforms: routes, headless Services, EndpointSlices |
| `Renaming.dfy` | rewriting the names and references of a configuration |
| `Conversion.dfy` | load balancers turned into references to Kubernetes Services |
| `Objects.dfy` | metadata written on objects, Server-Side Apply as an overlay |
| `Phases.dfy` | one reconcile phase, stated without any order: result, exactness, safety |
| `Reconciler.dfy` | the reconcile loops over a fallible API |
| `ParallelRun.dfy` | the parallel and the sequential reconcile as a state machine over API calls |
| `GracePool.dfy` | the grace-deletion queue, workers and semaphore as a state machine |
| `PollLoop.dfy` | change detection, signatures, error counter, over whole runs |
| `Convergence.dfy` | all of the above composed: poll, detect, sanitise, apply, collect, and what a failure can leave |
| `GraceRuns.dfy` | the grace period and skipped polls together |
| `Backoff.dfy` | the delay between polls, jittered in float64 |
| `EndpointSlices.dfy` | three-way merge of metadata with ownership tracking |
| `SemanticEquality.dfy` | semantic equality of values and changed keys |
| `Redaction.dfy` | redaction of logged documents |

`dafny verify dfyconfig.toml` verifies everything.

## Main results

- **Parallel equals sequential.** Every interleaving of the API calls of the phases that finishes ends in
  exactly the cluster of the sequential reconcile, never with more than `max(1, ReconcileMax)` phases
  running. No run is longer than a bound read off its input, and one in which nothing failed can always
  be continued until it finishes.
- **Every intermediate state is safe.** Whatever call fails and whenever, nothing desired and nothing
  foreign is lost, and stale objects go only after everything desired was written.
- **A skipped poll is right, exactly when nothing disturbed the last success.** An answer that carries a
  body is skipped if and only if that body is the one last applied. The cluster is then what that body
  demands in every run over the same polls if and only if every failed apply since was harmless to it,
  which is a condition on the two configurations (`Convergence.Harmless`): what the failed one wants, as
  far as its phases get, is wanted the same way by the applied one, and the other way round where its
  phases get as far as deleting. A failure at decoding or sanitising is always harmless. What a failure
  can leave is exactly what the failing runs of the reconcile leave, in the sequential and the parallel form.
- **Renaming preserves meaning.** At every unfolding depth a renamed configuration means what the original
  meant, with no condition at all once a reference is read as "the greatest definition that shares its
  sanitised name", and literally where no names collide.
- **Names are words joined by dashes**, a label that fits, idempotent, and left alone exactly when already
  one. A port survives the trip through the sanitiser exactly when the name keeps a character.
- **The grace pool** conserves requests, never blocks on its semaphore, never deletes early and only what
  an earlier listing showed as stale, and can always drain; it does delete a name that became desired
  again, and skipped polls then never restore it. What the last body wants stays in place exactly when no
  deletion of a wanted name is pending.
- **Semantic equality** is equality of canonical forms and never identifies numbers of different value,
  because the 2^53 guard keeps the conversion to float64 exact; **redaction** reveals exactly what is not under a
  sensitive key; **the three-way merge** is given for every key by its history; **load balancers** are
  converted exactly when all their servers denote one Service.

## Assumptions

- Library functions are parameters: lower-casing a rune, SHA-256 (collision-free for bodies, ten
  hexadecimal characters for names), URL and address parsing, JSON encoding of a key list, decoding a
  configuration body. Each theorem states the laws it needs of them, on the inputs at hand. The one asked
  of a URL parser is that a qualified short name reads back, and `Conversion.LabelsReadBack` gives it for
  DNS labels from the parser reading plain URLs.
- A decoded document holds the values after decoding: what JSON decoding does to a number that float64 does
  not represent has already happened.
- A float64 operation rounds by a parameter: exact on the integers it represents (`SemanticEquality`), within
  a relative error of 2^-53 (`Backoff`).
- Server-Side Apply lays the emitted metadata over the existing one and writes the spec. Field ownership
  is API-server behaviour and is not modelled.
- An API call that fails either had no effect or took effect although its answer was lost.
- The server obeys sections 8.8.1, 13.1.2 and 15.4.5 of RFC 9110: a 304 answers a matching condition, and
  one strong validator means one body.
- The configured label and annotation keys do not clash (`Objects.DistinctKeys`); `Objects.MarkedExactly`
  says precisely what a clash costs.

## Where code and documentation disagree

The code is followed in each case.

- docs/controller/controller.md:365 says that a changed tag of an unchanged body is remembered.
  internal/controller/loop.go:188-202 remembers nothing on a skipped poll: `PollLoop.SkippedTagIsNotAdopted`
  gives the exact condition under which the rule is met all the same, `PollLoop.TagOfUnchangedBodyIsLost` a
  run in which it is not.
- docs/controller/controller.md:299-332 keeps one signature that is a tag or a hash and skips on 304 only;
  internal/controller/loop.go:270-279 keeps both and internal/controller/change_detection.go:9-39 compares both.
- docs/controller/controller.md:382 draws the wait from zero up to the delay, but at least 200 ms;
  internal/controller/backoff.go:41-43 takes 0.8 to 1.2 of the delay and has no floor.
- docs/controller/controller.md:383 resets the error counter on a successful reconcile;
  internal/controller/loop.go:45 resets it after a good fetch, as `PollLoop.ErrorCounter` states.
- docs/controller/controller.md:392 re-fetches on a conflict; internal/apply/unstructured.go:156-170 sends the
  same bytes again, and only when it forces.
- docs/controller/controller.md:419-420 collects by label; internal/controller/apply.go:262-271 also asks for the
  managed annotation.
- docs/controller/controller.md:422 processes items sorted by name; internal/controller/apply.go:220 and
  internal/controller/apply.go:235 take them as the map and the server yield them.
- docs/controller/controller.md:458-465 strips defaulted fields and uses library equality before comparing;
  internal/apply/diff.go:16-110 compares the values as they are, as modelled in `SemanticEquality.dfy`.
- internal/transform/protocol/http_conversion.go:156-157 says that the result tells whether every server was
  rewritten; the code below it reports whether any was.

## Model

| member | source | states |
|---|---|---|
| `Names.BuildBaseName` | internal/transform/sanitize/sanitize.go:55-73 | the rune loop with its `lastDash` flag writes what the recursive reading of the text writes |
| `Names.TrimmedBaseIsJoin` | internal/transform/sanitize/sanitize.go:48-73 | base name and trimming give the maximal alphanumeric runs of the text joined by single dashes |
| `Names.SanitizeResourceName` | internal/transform/sanitize/sanitize.go:48-52 | the result is a label without leading, trailing or doubled dash, of at most 253 characters |
| `Names.SanitizeShape` | internal/transform/sanitize/sanitize.go:42-114 | the same label shape for every input, including both hash fallbacks |
| `Names.NothingKeptIsHashed` | internal/transform/sanitize/sanitize.go:89-92 | a name that keeps no character becomes "x-" and its hash |
| `Names.UntruncatedIsJoin` | internal/transform/sanitize/sanitize.go:93-95 | a name that fits is its words joined by dashes |
| `Names.TruncatedShape` | internal/transform/sanitize/sanitize.go:96-114 | truncation keeps 241 or 242 characters plus the hash, 252 or 253 in all, so the "x" base and the bare hash are unreachable |
| `Names.SanitizeFixedPoints` | internal/transform/sanitize/sanitize.go:42-52 | a name is left alone if and only if it already is a label that fits |
| `Names.SanitizeIdempotent` | internal/transform/sanitize/sanitize.go:42-52 | sanitising twice is sanitising once |
| `Names.CollisionIsSameWords` | internal/transform/sanitize/sanitize.go:48-73 | two untruncated names collide if and only if their lowered forms have the same words |
| `Names.PlainNamesAreLowered` | internal/transform/sanitize/sanitize.go:42-73 | a name whose lowered characters are all a-z or 0-9 comes out as exactly those characters, if it fits |
| `Names.ResultCharacters` | internal/transform/sanitize/sanitize.go:42-114 | every character of every result is a-z, 0-9 or a dash |
| `Ports.ParsePort` | internal/transform/protocol/tcp_udp.go:435-445 | whatever parses lies in 1..65535 |
| `Ports.PrintParse` | internal/transform/protocol/tcp_udp.go:77-77 | a printed number parses back to itself |
| `Ports.PrintsDecimal` | internal/transform/protocol/tcp_udp.go:77-77 | ports are printed in decimal |
| `Ports.PortRoundTrip` | internal/transform/protocol/tcp_udp.go:329-339 | for an untruncated name the port read back is the port printed if and only if the service name keeps a character; otherwise there is none |
| `Ports.TruncatedPort` | internal/transform/protocol/tcp_udp.go:329-339 | for a truncated name the route reads the hash instead |
| `Ports.TruncatedPortIsWrong` | internal/transform/protocol/tcp_udp.go:329-339 | so for some digest a service on port 443 is routed to port 80 |
| `Ports.EqualNamesEqualPorts` | internal/transform/protocol/tcp_udp.go:77-78 | untruncated generated names that coincide have the same port and the same words |
| `Protocols.ServerReadsBack` | internal/transform/protocol/tcp_udp.go:383-433 | a server whose address, or whose url if it has no address, is a host and a printed port stands for that host and port |
| `Protocols.ServerTargetExactly` | internal/transform/protocol/tcp_udp.go:383-433 | a server stands for a host and a port exactly if its address text, or its url text when that is empty or no string, splits into them and the port text parses |
| `Protocols.BackendExactly` | internal/transform/protocol/tcp_udp.go:341-381 | a service stands for a list of hosts and a port exactly if its document is a load balancer with a non-empty list of servers that stand, one by one and in order, for these hosts and all for this port |
| `Protocols.ExtractBackend` | internal/transform/protocol/tcp_udp.go:341-402 | the accumulating loop yields hosts and a port exactly when the document says so: one host for each server it lists, in order, and one port for all |
| `Protocols.BuildServiceIndex` | internal/transform/protocol/tcp_udp.go:50-60 | the index holds every service, or the build fails because one of them is malformed |
| `Protocols.TransportExactly` | internal/transform/protocol/tcp_udp.go:447-456 | the servers transport of a service is the text its document has for it |
| `Protocols.ChooseAddressType` | internal/transform/protocol/tcp_udp.go:300-327 | mixed families before the first host name are an error, a host name makes the slice FQDN, otherwise the one family |
| `Protocols.BuildEndpointSlice` | internal/transform/protocol/tcp_udp.go:282-298 | one endpoint per host in order, the given port, the chosen address type |
| `Protocols.BuildKubeArtifacts` | internal/transform/protocol/tcp_udp.go:73-87 | one headless Service and one slice per service in name order, failing only for mixed families |
| `Protocols.NoRouteMissesItsPort` | internal/transform/protocol/tcp_udp.go:138-176 | wherever a route leads, also by falling back on an undefined name: if a generated Service has that name, it has the route's port |
| `Protocols.BuildRoutes` | internal/transform/protocol/tcp_udp.go:90-106 | one route per router for every visiting order, or failure because some router has no route |
| `Protocols.RouteExists` | internal/transform/protocol/tcp_udp.go:138-176 | a router has a route exactly if it names a service, for TCP also a rule, for UDP a defined service, and a port can be read back |
| `Protocols.TcpRouteContents` | internal/transform/protocol/tcp_udp.go:109-176 | the fields of a TCP route read off the router's document, the fallback on an undefined service and the servers transport included |
| `Protocols.UdpRouteContents` | internal/transform/protocol/tcp_udp.go:232-269 | the same for UDP |
| `Protocols.RouteIsServed` | internal/transform/protocol/tcp_udp.go:232-269 | a route to a defined service is backed by the Service and slice generated for it, with the same port and the configured hosts |
| `Protocols.Transform` | internal/transform/protocol/tcp_udp.go:178-197 | success exactly for transformable input; Services, slices and routes as intended; for every service one headless Service and one slice with one endpoint for each server its document lists, in order; every route to a defined service backed, and no route leads to a Service under another port |
| `Protocols.TransformProtocol` | internal/transform/protocol/tcp_udp.go:19-40 | the same over the real sanitiser whenever no generated name is truncated |
| `Renaming.SanitizeReference` | internal/transform/sanitize/sanitize.go:350-355 | a reference is always the sanitised name, mapped or not |
| `Renaming.BuildNameMapping` | internal/transform/sanitize/sanitize.go:149-159 | the mapping covers the defined names and sends each to its sanitised form |
| `Renaming.SanitizeNames` | internal/transform/sanitize/sanitize.go:216-223 | the loop rewrites exactly the strings of the list |
| `Renaming.SanitizeEntries` | internal/transform/sanitize/sanitize.go:283-297 | the loop rewrites exactly the names of the entries that have one |
| `Renaming.SanitizeWeightedSection` | internal/transform/sanitize/sanitize.go:282-297 | rewriting by schema at the weighted section |
| `Renaming.SanitizeMirroringSection` | internal/transform/sanitize/sanitize.go:299-335 | rewriting by schema at the mirroring section |
| `Renaming.SanitizeFailoverSection` | internal/transform/sanitize/sanitize.go:337-348 | rewriting by schema at the failover section |
| `Renaming.SanitizeTransportReference` | internal/transform/sanitize/sanitize.go:268-274 | rewriting by schema at the servers transport of a load balancer |
| `Renaming.SanitizeRouterRaw` | internal/transform/sanitize/sanitize.go:205-229 | the whole router is rewritten at exactly its references, or does not decode |
| `Renaming.SanitizeMiddlewareRaw` | internal/transform/sanitize/sanitize.go:231-255 | the same for a middleware and its chain |
| `Renaming.SanitizeServiceRaw` | internal/transform/sanitize/sanitize.go:257-280 | the same for a service and its four sections |
| `Renaming.RouterFields` | internal/transform/sanitize/sanitize.go:205-229 | member by member: the service and each middleware of a router are sanitised and count as references, all else is kept |
| `Renaming.MiddlewareFields` | internal/transform/sanitize/sanitize.go:231-255 | the same for each middleware of a chain |
| `Renaming.WeightedFields` | internal/transform/sanitize/sanitize.go:282-297 | the same for the name of each weighted service |
| `Renaming.MirroringFields` | internal/transform/sanitize/sanitize.go:299-335 | the same for the mirrored service and the name of each mirror |
| `Renaming.FailoverFields` | internal/transform/sanitize/sanitize.go:337-348 | the same for the failover service and its fallback |
| `Renaming.LoadBalancerFields` | internal/transform/sanitize/sanitize.go:268-274 | the same for the servers transport of a load balancer |
| `Renaming.ServiceRest` | internal/transform/sanitize/sanitize.go:257-280 | nothing outside these four sections changes, nor a section that is no object |
| `Renaming.UntouchedMessages` | internal/transform/sanitize/sanitize.go:205-280 | what is neither empty, an object nor null fails, except a servers transport; what is empty or null is passed on |
| `Renaming.Populate` | internal/transform/sanitize/sanitize.go:161-203 | every definition has its image, and each image is that of the lexicographically greatest definition of its name |
| `Renaming.SanitizeConfig` | internal/transform/sanitize/sanitize.go:117-147 | success exactly for decodable input; the output is the renaming of the input |
| `Renaming.RenamedIsUnique` | internal/transform/sanitize/sanitize.go:117-203 | being the renaming of a section leaves one outcome |
| `Renaming.RenamingPreservesMeaning` | internal/transform/sanitize/sanitize.go:117-355 | at every depth the output unfolds as the input does when references are read up to collisions; no condition on the names |
| `Renaming.SimulationPreservesMeaning` | internal/transform/sanitize/sanitize.go:205-355 | the induction behind it, for any two lookups related by rewriting |
| `Renaming.RenamedMeansTheSame` | internal/transform/sanitize/sanitize.go:117-355 | without collisions every definition means after renaming what it meant before |
| `Renaming.FixedNamesDoNotCollide` | internal/transform/sanitize/sanitize.go:117-203 | a configuration whose names are all left alone has no collisions |
| `Renaming.MeaningFollows` | internal/transform/sanitize/sanitize.go:117-355 | references with one meaning both dangle, or lead to documents with one meaning |
| `Renaming.MeaningKeeps` | internal/transform/sanitize/sanitize.go:117-355 | objects with one meaning have the same members, each with one meaning, and equal where they are no references |
| `Renaming.MeaningOfLists` | internal/transform/sanitize/sanitize.go:117-355 | lists with one meaning are equally long, and have one meaning element by element |
| `Conversion.ParsedExactly` | internal/transform/protocol/http_conversion.go:276-329 | a URL parses to a target if and only if its host is that qualified service and it has no path or query |
| `Conversion.UrlPorts` | internal/transform/protocol/http_conversion.go:319-329 | a printed port is the port; without one it is 443 for https and 80 for http |
| `Conversion.LoadBalancersExactly` | internal/transform/protocol/http_conversion.go:194-247 | exactly the documents that are a load balancer with servers and nothing else are considered, and exactly the one without any server is the empty one |
| `Conversion.ParseUniformTargets` | internal/transform/protocol/http_conversion.go:249-274 | a target exactly when all servers have that target |
| `Conversion.RewriteShortNames` | internal/transform/protocol/http_conversion.go:151-188 | reports a change exactly when every entry was readable and one was short, and has then qualified all short names |
| `Conversion.QualifiedFqdn` | internal/transform/protocol/http_conversion.go:176-184 | the qualified form denotes what the short name denotes in its own namespace |
| `Conversion.ConvertsExactly` | internal/transform/protocol/http_conversion.go:121-149 | a server list is converted to a target if and only if every server denotes it and the qualified ones ask for no path or query, given that the short names at hand read back |
| `Conversion.ConvertibleExactly` | internal/transform/protocol/http_conversion.go:250-329 | what a server must be for that, read off its entry: one URL text, http or https, a host without dots, or a qualified one without path and query |
| `Conversion.ConvertedExactly` | internal/transform/protocol/http_conversion.go:121-149 | a service is converted to a target exactly when its document is a load balancer whose servers convert to it |
| `Conversion.ConversionKeepsTheBackend` | internal/transform/protocol/http_conversion.go:121-149 | the written weighted entry, read back, is what every server URL denoted |
| `Conversion.LabelsReadBack` | internal/transform/protocol/http_conversion.go:176-184 | short names and a namespace that are DNS labels read back with every parser that reads plain URLs |
| `Conversion.ReadsBackExactly` | internal/transform/protocol/http_conversion.go:176-184 | in the generic URL syntax a qualified short name reads back if and only if host and namespace are free of delimiters and the port of '/' and '?' |
| `Conversion.GenericSyntaxReadsPlainUrls` | internal/transform/protocol/http_conversion.go:95-104 | a parser of that syntax reads plain URLs |
| `Conversion.ProcessService` | internal/transform/protocol/http_conversion.go:34-80 | each service has one of four outcomes and the result belonging to it |
| `Conversion.OtherOutcomes` | internal/transform/protocol/http_conversion.go:42-66 | an absent or empty document is filled exactly if the environment has a usable URL, the gateway goes to the empty load balancer only, and what is neither of these nor converted comes back as it was |
| `Conversion.GatewayExactly` | internal/transform/protocol/http_conversion.go:194-227 | the gateway goes to a load balancer without servers, exactly if there is a gateway and a namespace |
| `Conversion.ResultsExactly` | internal/transform/protocol/http_conversion.go:106-149 | the documents that are written, member by member |
| `Conversion.ProcessServices` | internal/transform/protocol/http_conversion.go:22-32 | the set of names is kept and each service is processed |
| `Conversion.QualifiedServersLoseNothing` | internal/transform/protocol/http_conversion.go:301-316 | a converted qualified URL had no path and no query |
| `Conversion.ShortNamesLoseTheirPath` | internal/transform/protocol/http_conversion.go:176-186 | a short name is converted whatever its path and query, which are dropped |
| `Objects.UpdateFields` | internal/apply/metadata.go:16-27 | two updates in a row, laid over the object, write both fields unless they fight over one key; the flag says whether anything was emitted |
| `Objects.EmittedIsMissing` | internal/apply/metadata.go:16-27 | what is emitted is what is missing, except exactly when two updates fight over a key whose second value the object already has |
| `Objects.BuildMetadata` | internal/apply/metadata.go:39-97 | what is emitted for every choice of keys; without a clash, and for new objects, exactly the missing fields; force exactly when an existing object misses one |
| `Objects.ClashingLabelsAlternate` | internal/apply/metadata.go:50-68 | with clashing label keys an object never settles: each write turns the one value into the other |
| `Objects.OverlayIsWritten` | internal/apply/unstructured.go:86-98 | emitting only what is missing gives the object that emitting everything would give |
| `Objects.WrittenIsMarked` | internal/apply/metadata.go:39-97 | what is written is marked, carries every configured field, under its literal key, and the spec, and keeps all other metadata |
| `Objects.WrittenKeepsTheRest` | internal/apply/metadata.go:39-97 | every other label and annotation of an existing object is kept, and no other appears |
| `Objects.WrittenTwice` | internal/apply/metadata.go:39-97 | writing the same thing again changes nothing |
| `Objects.MarkedExactly` | internal/apply/metadata.go:69-87 | for every choice of keys, a new object is marked if and only if no other field takes a marker's key for another value |
| `Objects.MarkedByFields` | internal/controller/apply.go:262-271 | marked, read off the fields: the label is there and equal, and so is the annotation, a missing one counting as empty |
| `Objects.ClashingKeysLoseTheMarker` | internal/apply/metadata.go:69-87 | a configuration whose IngressRoutes are not marked |
| `Phases.PhaseExact` | internal/controller/apply.go:203-271 | after a phase the marked objects are exactly the desired ones, as written, and foreign objects are untouched |
| `Phases.DeletedByFields` | internal/controller/apply.go:228-271 | what a phase deletes, read off the fields: an object goes exactly if its name is not desired, its label is there and equal, and so is its annotation, a missing one counting as empty; every other undesired object stays as it is |
| `Phases.ExactAndFramedIsResult` | internal/controller/apply.go:203-271 | those two properties leave exactly one outcome |
| `Phases.PhaseIdempotent` | internal/controller/apply.go:203-271 | a second run changes nothing |
| `Phases.ReachedIsSafe` | internal/controller/apply.go:145-184 | wherever a phase stops, nothing desired or foreign is lost and deletes came last |
| `Reconciler.Api.ApplyWithRetry` | internal/apply/unstructured.go:142-176 | at most five attempts, which together have the effect of one, or none |
| `Reconciler.Api.ApplyObject` | internal/apply/unstructured.go:69-98 | get, create or patch leaves the object as written; it fails only if a call failed |
| `Reconciler.Api.ApplyDesired` | internal/controller/apply.go:203-226 | all objects are written in whatever order, or some of them if it fails |
| `Reconciler.Api.CollectStale` | internal/controller/apply.go:228-271 | exactly the stale objects are deleted, or scheduled, or left alone in read-only mode; which ones those are is read off the fields of the objects |
| `Reconciler.Api.ReconcileKind` | internal/controller/apply.go:145-150 | a whole phase: its result on success, a safe store on failure, and only its own kind touched |
| `Reconciler.Api.ReconcileRouters` | internal/controller/apply.go:152-184 | if any router does not transform, nothing is written or deleted; otherwise as `ReconcileKind` for the routes the routers transform to |
| `ParallelRun.CallKeepsTask` | internal/controller/apply.go:203-252 | every API call keeps the store of its phase where its program counter says |
| `ParallelRun.RunInv` | internal/controller/apply.go:93-143 | the invariant holds in every state of every run |
| `ParallelRun.BoundedConcurrency` | internal/controller/apply.go:94-103 | at most max(1, ReconcileMax) phases run at a time |
| `ParallelRun.EveryStateIsSafe` | internal/controller/apply.go:93-184 | every state of every run, with any failures, is safe for every kind; broken routers leave theirs untouched |
| `ParallelRun.SequentialByKind` | internal/controller/apply.go:46-91 | phases on distinct kinds do not depend on their order |
| `ParallelRun.ParallelEqualsSequential` | internal/controller/apply.go:46-143 | every run that finishes ends in exactly the cluster of the sequential reconcile |
| `ParallelRun.FinishingNeedsGoodInput` | internal/controller/apply.go:145-184 | a run finishes only if every document decodes and every router transforms |
| `ParallelRun.NoDeadlock` | internal/controller/apply.go:98-143 | without failures some phase can always proceed until all are done |
| `ParallelRun.WorkDrops` | internal/controller/apply.go:98-143 | every step, failing or not, leaves less to do |
| `ParallelRun.RunsAreBounded` | internal/controller/apply.go:93-143 | no run is longer than what there is to do at its start |
| `ParallelRun.CanFinish` | internal/controller/apply.go:93-143 | with good input a run in which nothing failed can be continued until all phases are done |
| `ParallelRun.CanStop` | internal/controller/apply.go:203-252 | from any state in which its phase may begin, every store a phase can be left with is what some run leaves in which that phase fails |
| `ParallelRun.StopAll` | internal/controller/apply.go:93-143 | whatever each phase can be left with, some parallel run leaves all of it at once and every phase has ended |
| `ParallelRun.StopInOrder` | internal/controller/apply.go:46-91 | some sequential run completes the phases before a given one and stops in that one wherever it can |
| `ParallelRun.RunOrderly` | internal/controller/apply.go:46-91 | in every state of every sequential run the phases before one that has begun are over |
| `GracePool.Bounded` | internal/controller/apply.go:579-593 | the queue stays within its capacity and the semaphore counts the deleting workers |
| `GracePool.AcquireNeverBlocks` | internal/controller/controller.go:123-127 | there are as many slots as workers, so acquiring never blocks |
| `GracePool.SendsWhileThereIsRoom` | internal/controller/apply.go:564-593 | a stale name can be sent exactly while fewer requests are queued than the queue holds, 256 by default |
| `GracePool.Conservation` | internal/controller/apply.go:564-627 | accepted requests are the queued, the in-flight, the finished and the abandoned ones; none is deleted more often than accepted; only after cancellation is a request abandoned, and none without a delay ever |
| `GracePool.DeletionsAreDueAndJustified` | internal/controller/apply.go:228-252 | no deletion before the delay is over, none for a name that was not marked and undesired in an earlier cluster, listed no later than the step that accepted the request; one request per name and listing |
| `GracePool.ListingIsReal` | internal/controller/apply.go:228-233 | a listing is what the cluster held at some earlier point of the run |
| `GracePool.Progress` | internal/controller/apply.go:595-627 | without cancellation, while a request is queued or in flight some worker can step, after the clock has advanced if need be |
| `GracePool.Drains` | internal/controller/apply.go:595-627 | so every such run can be continued until each accepted request is finished |
| `GracePool.DeletesWhatIsWantedAgain` | internal/controller/apply.go:606-627 | a name that becomes desired during the delay is deleted all the same |
| `PollLoop.Loop.Iterate` | internal/controller/loop.go:18-55 | one iteration updates the four variables as specified and takes the specified action |
| `PollLoop.RejectedStatuses` | internal/controller/loop.go:242-268 | a status is a failure if and only if it is none of 200, 304 and 404; what is applied is what was served |
| `PollLoop.MemorySigns` | internal/controller/loop.go:270-279 | at every point of every run the memory is the signature of the body last applied |
| `PollLoop.RememberedTag` | internal/controller/loop.go:144-149 | the tag sent as a condition is the one the last applied body came with |
| `PollLoop.SkipsExactlyTheLastBody` | internal/controller/change_detection.go:9-39 | an answer with a body is skipped if and only if that body is the last applied one |
| `PollLoop.WeakTagsAreNotTrusted` | internal/controller/change_detection.go:17-32 | under an unchanged tag W/x another body is never skipped; under an unchanged strong tag it is |
| `PollLoop.IsWeakExactly` | internal/controller/change_detection.go:41-43 | the tags taken for weak are the weak validators of RFC 9110: the first two characters are W and a slash |
| `PollLoop.WeakComparison` | internal/controller/loop.go:144-149 | the comparison the server makes with the tag sent as a condition: weak or not, two tags match exactly if the rest is the same |
| `PollLoop.ServedExactly` | internal/controller/loop.go:242-268 | a 200 stands for its body, a 404 for the empty document, anything else for none |
| `PollLoop.NotModifiedMeansEquivalent` | internal/controller/loop.go:245-246 | on a 304 there was a success before, and the current representation is equivalent to that body |
| `PollLoop.SkippedTagIsNotAdopted` | internal/controller/loop.go:188-202 | after a skipped poll the tag sent next is the one sent before; it is the tag just served if and only if that was the remembered one |
| `PollLoop.TagOfUnchangedBodyIsLost` | internal/controller/loop.go:188-202 | a run in which a changed tag of an unchanged body is not remembered |
| `PollLoop.SkippedIsLastApplied` | internal/controller/loop.go:242-268 | what a skipped poll stands for, in both cases |
| `PollLoop.ErrorCounter` | internal/controller/loop.go:82-108 | the counter is the number of failed fetches since the last good one, plus one if that one failed to apply |
| `PollLoop.ErrorCounterBeforeGoodFetch` | internal/controller/loop.go:32-37 | before any good fetch it is the number of polls |
| `PollLoop.ApplyFailuresDoNotAccumulate` | internal/controller/loop.go:45-49 | while fetching works, failing to apply never raises it above one |
| `Convergence.RunPhase` | internal/controller/apply.go:145-201 | one phase: success leaves exactly its objects, failure needs a failed call or an impossible demand, and it stops only where such a phase can; with a grace period it writes everything and schedules exactly what is stale |
| `Convergence.ReconcileSequentially` | internal/controller/apply.go:46-91 | the four phases in order leave the cluster the configuration demands: each document of the configuration is the spec of the object of its name and kind, and nothing else is marked; they fail only for a failed call or an impossible demand; wherever they stop, earlier phases are complete and later ones have not begun; with a grace period the stale objects of every kind are scheduled |
| `Convergence.PossibleExactly` | internal/controller/apply.go:145-226 | a configuration can be carried out exactly if its documents are objects or null and its routers have routes |
| `Convergence.CarriesSpecs` | internal/controller/apply.go:203-252 | a cluster that is as a configuration demands has each document as the spec of the object of its name and kind, and no other object of these kinds is marked |
| `Convergence.PostponedSpecs` | internal/controller/apply.go:228-252 | with a grace period the documents are in place all the same |
| `Convergence.WhatIsLeftIsSafe` | internal/controller/apply.go:46-143 | whatever a failed reconcile leaves, in either form, every kind is at a safe point of its own phase and all other kinds are untouched |
| `Convergence.ApplyBody` | internal/controller/loop.go:89-108 | decoding, sanitising and reconciling a body moves the cluster to what the body demands, or, if it fails, to something such a failure can leave; a body that cannot be decoded or sanitised changes nothing |
| `Convergence.ParallelStates` | internal/controller/apply.go:93-143 | every state of every parallel run of a configuration is one a failed reconcile can leave |
| `Convergence.ParallelCarriesOutTheBody` | internal/controller/apply.go:93-143 | a parallel run that finishes had a possible demand and carries the body out as the sequential form does |
| `Convergence.ParallelLeavesSpecs` | internal/controller/apply.go:93-143 | each document of the body is then the spec of the object of its name and kind, and nothing else is marked |
| `Convergence.ParallelCanCarryOut` | internal/controller/apply.go:93-143 | a body that can be carried out is, in some run, whatever the limit on concurrency |
| `Convergence.CarriesIsFixpoint` | internal/controller/apply.go:203-252 | the cluster is as a configuration demands exactly when reconciling it again would change nothing |
| `Convergence.AgreesExactly` | internal/apply/metadata.go:39-97 | writing one thing over another leaves it as the other would be written if and only if the specs are equal and the entry points do not contradict |
| `Convergence.HarmlessExactly` | internal/controller/apply.go:46-143 | every cluster a failed reconcile of one configuration can leave carries the other if and only if the first is harmless to it |
| `Convergence.CanLeaveExactly` | internal/controller/apply.go:46-143 | in either form, what a failed reconcile can leave is exactly what the runs leave that fail and return |
| `Convergence.HarmfulRun` | internal/controller/apply.go:46-143 | for a harmful configuration there is, in either form, a run that fails, returns and leaves a cluster without the other |
| `Convergence.UndisturbedCarries` | internal/controller/loop.go:18-55 | after a success and harmless failures only, the cluster carries the last applied body |
| `Convergence.SkippedPollFindsDemandedCluster` | internal/controller/loop.go:18-55 | a skipped poll with only harmless failures since the last success finds exactly the demanded objects, each with its document as spec, and re-applying would change nothing |
| `Convergence.DisturbedCanMiss` | internal/controller/loop.go:47-51 | after a failure that was not harmless, some run over the same polls no longer carries the last body |
| `Convergence.SkipIsRightExactly` | internal/controller/loop.go:18-55 | a skip is right in every run over the same polls if and only if no failure since the last success was harmful |
| `Convergence.FailureThenOldBodyIsSkipped` | internal/controller/loop.go:47-51 | after one body was applied and another failed, going back to the first is skipped and the cluster stays, whatever the failure left |
| `Convergence.SomeFailure` | internal/controller/loop.go:47-51 | a failure can leave a cluster without what the first body demands if and only if the second is harmful to it |
| `Convergence.SkipCanBeWrong` | internal/controller/loop.go:47-51 | a concrete input, for either form, on which the skip leaves a cluster without what the served body demands, together with the failing run of the reconcile that left it |
| `GraceRuns.ReconcilePresents` | internal/controller/apply.go:228-252 | with a grace period a reconcile leaves everything it wants in place, and its own requests are for other names |
| `GraceRuns.WantedStaysExactly` | internal/controller/apply.go:606-627 | what the last applied configuration wants stays in place while its body is served if and only if no deletion of a wanted name is pending |
| `GraceRuns.RestoredObjectIsLost` | internal/controller/apply.go:606-627 | one body, another, and the first again within the grace period: an object of the first is deleted and no later poll restores it |
| `Backoff.ComputeBase` | internal/controller/backoff.go:25-40 | the doubling loop computes the specified delay and never leaves the range of int64 |
| `Backoff.ComputeBackoff` | internal/controller/backoff.go:25-44 | the wait in whole nanoseconds is within a fifth of the delay, up to eight roundings of float64, never negative, and in the range of int64 unless the cap is within about a fifth of it |
| `Backoff.JitterBounds` | internal/controller/backoff.go:41-43 | the rounded product lies within the stated multiples of the delay |
| `Backoff.Monotone` | internal/controller/backoff.go:30-40 | more errors never mean a shorter wait |
| `Backoff.ExactlyCappedDoubling` | internal/controller/backoff.go:30-40 | it is min(poll * 2^(n-1), max) if and only if that power is not one nanosecond short of the cap; an even cap is never missed |
| `Backoff.OddCapOvershoots` | internal/controller/backoff.go:32-33 | a cap of 5 ns is reached from 2 ns after one doubling |
| `EndpointSlices.MarshalKeys` | internal/apply/endpointslice.go:147-183 | parsing the marshalled list gives back the non-empty keys |
| `EndpointSlices.RemoveManagedKeys` | internal/apply/endpointslice.go:185-201 | exactly the managed keys that are no longer desired are removed |
| `EndpointSlices.MergeStringMap` | internal/apply/endpointslice.go:73-80 | the loop is map override |
| `EndpointSlices.SentWithMarkers` | internal/apply/endpointslice.go:82-98 | the object that is sent carries the markers and keeps its other fields |
| `EndpointSlices.Slice.EnsureManagedMeta` | internal/apply/endpointslice.go:82-98 | the markers are set in place |
| `EndpointSlices.Slice.EnsureKeysTracking` | internal/apply/endpointslice.go:100-145 | exactly the managed keys are recorded and nothing else changes |
| `EndpointSlices.RecordsExactly` | internal/apply/endpointslice.go:147-164 | where the records are and how they are read: the non-empty keys of the list under the literal annotation, none if it does not decode |
| `EndpointSlices.Slice.Update` | internal/apply/endpointslice.go:52-71 | labels and annotations are merged against what was recorded |
| `EndpointSlices.SliceApi.Apply` | internal/apply/endpointslice.go:33-50 | get, then create or update: one merge step for labels and one for annotations of the named object and no other, or nothing in read-only mode; if a call fails, the whole step or nothing |
| `EndpointSlices.RunIsExpected` | internal/apply/endpointslice.go:52-71 | after any sequence of applies each key holds what its history says |
| `EndpointSlices.ManagedRun` | internal/apply/endpointslice.go:52-71 | if every key sent was recorded or is still sent, the foreign keys never sent and the last set remain, and nothing else |
| `EndpointSlices.AppliesConverge` | internal/apply/endpointslice.go:33-71 | the same for every run of applies on one object, for labels and annotations, starting from metadata without records |
| `EndpointSlices.CreateStep` | internal/apply/endpointslice.go:42-46 | creating the prepared object is a merge step from nothing |
| `EndpointSlices.MergeTwice` | internal/apply/endpointslice.go:52-71 | repeating an apply is a no-op |
| `EndpointSlices.CreateIsMerge` | internal/apply/endpointslice.go:40-48 | creating an object is merging into nothing |
| `EndpointSlices.UnrecordedKeysStay` | internal/apply/endpointslice.go:113-119 | a key sent without being recorded outlives the apply that sent it |
| `SemanticEquality.DeepEqualIsEquality` | internal/apply/diff.go:33-36 | strict equality is identity on values without NaN |
| `SemanticEquality.MapsByKey` | internal/apply/diff.go:64-84 | maps are equal if and only if they agree at every key, a missing one counting as nil |
| `SemanticEquality.EqualityByCanonicalForm` | internal/apply/diff.go:33-110 | semantic equality is equality of canonical forms, up to NaN inside lists |
| `SemanticEquality.Reflexive` | internal/apply/diff.go:33-62 | a value equals itself if and only if it has no NaN inside a list |
| `SemanticEquality.Symmetric` | internal/apply/diff.go:33-110 | symmetric on all values |
| `SemanticEquality.Transitive` | internal/apply/diff.go:33-110 | transitive on all values |
| `SemanticEquality.EqualNumbersHaveEqualValue` | internal/apply/numeric.go:3-42 | equal numbers have the same mathematical value, for every conversion to float64 that keeps what it can represent |
| `SemanticEquality.ConversionIsExact` | internal/apply/numeric.go:3-42 | whatever passes the 2^53 guard keeps its value |
| `SemanticEquality.ConvertedExactly` | internal/apply/numeric.go:3-42 | the floats and the integers of magnitude up to 2^53 are converted, and no other |
| `SemanticEquality.GuardIsTight` | internal/apply/numeric.go:4-4 | a lawful conversion may merge 2^53 + 1 with 2^53, which the guard keeps apart |
| `SemanticEquality.MissedEqualities` | internal/apply/diff.go:49-62 | numbers of one value are equal unless both are integers beyond 2^53 and of types that are not compared, or only one is such an integer |
| `SemanticEquality.DiffKeys` | internal/apply/diff.go:16-31 | each differing key once, and none exactly when the maps are semantically equal |
| `Redaction.ContainsSensitive` | internal/observability/logging/redact.go:58-66 | the loop decides whether some substring occurs |
| `Redaction.SensitiveExactly` | internal/observability/logging/redact.go:58-66 | the five substrings, of which one in the lowered key makes it sensitive |
| `Redaction.ReplacedExactly` | internal/observability/logging/redact.go:47-56 | a value is replaced by the placeholder wherever in its lowered key one of the five stands, and only then |
| `Redaction.RedactAny` | internal/observability/logging/redact.go:33-56 | the in-place walk computes the redaction |
| `Redaction.RevealsExactlyTheRest` | internal/observability/logging/redact.go:33-56 | two documents redact alike if and only if they agree outside sensitive keys |
| `Redaction.RedactedFully` | internal/observability/logging/redact.go:47-56 | every value under a sensitive key, at any depth, is the placeholder |
| `Redaction.UnchangedExactly` | internal/observability/logging/redact.go:33-56 | a document is unchanged if and only if it is fully redacted already |
| `Redaction.RedactTwice` | internal/observability/logging/redact.go:33-56 | redaction is idempotent |

## Left out

- HTTP fetching, TLS, redirects, body limits, environment and file configuration: input and output over libraries.
- Leader election, orchestration and shutdown beyond the cancellation of the grace pool: the election protocol is a library's.
- Field ownership, conflicts and the force option of Server-Side Apply beyond when the metadata ask for it (`Objects.BuildMetadata`): behaviour of the API server.
- Metrics, logging text and the log preview other than its redaction: no effect on the objects.
- The record built for an IngressRoute (internal/transform/routing/routing.go): a parameter that may fail; only that failure stops the phase is used.
- Byte-level JSON and URL parsing beyond the plain URLs of `Conversion.ReadUrl`: parsed values are the inputs. IPv6 literals used as short names do not read back, so the conversion theorems do not speak of them.
- `reconcileTCP` and `reconcileUDP` as phases: a sanitised configuration has neither section, so they do nothing; their transforms are modelled on their own inputs.
- A nil map of servers transports, which skips its phase: sanitising never produces one.
- Aliasing of nested maps while sections are rewritten: a decoded document has no shared parts, so rewriting is modelled on values.
- Redaction.RedactAny: update in place is modelled on values, because a decoded document has no shared parts.
- Backoff.ComputeBase: the poll interval is taken to be positive, as the delay makes no sense otherwise; the source does not validate it.
- Conversion.ConvertsExactly: the target namespace is taken to be a DNS label without dots, as Kubernetes demands.
- Reconciler.Api.ApplyObject: requires that the configured keys do not clash; `Objects.BuildMetadata`, `Objects.MarkedExactly` and `Objects.ClashingLabelsAlternate` cover the other configurations.
- Convergence.SkippedPollFindsDemandedCluster: runs are without outside edits, read-only mode and grace period; `GraceRuns` covers the grace period.
