# qwe1: a verified model of the agent's engines and of the refresh protocol

qwe1 is a server-monitoring agent written in Go together with a Flutter app. This project models
the parts of both that carry state, and proves what they promise over whole runs. `dafny verify
dfyconfig.toml` checks all of it.

| file | what it models |
|---|---|
| `AuthStore.dfy` | the persisted store of refresh tokens, enrolments and devices, as a class over its lists and the state file |
| `TokenFamilies.dfy` | what the record list stands for: device -> one live token, spent tokens, revoked or not; every operation of the store refines one on the families |
| `RefreshProtocol.dfy` | the interleaved protocol: any number of `_refreshAccessToken` calls in the app, refresh handlers at each of their store operations, other clients |
| `AppRepository.dfy` | the app's repository object, its stretches between two awaits tied to the protocol's steps |
| `AuthServer.dfy` | the auth handlers as whole steps over memory and disk, the `enroll` command, agent restart, and the gate in front of protected routes |
| `Signer.dfy` | access tokens: unpadded base64url (section 5 of RFC 4648), decimal expiry, both splits; HMAC (section 2 of RFC 2104) is any function |
| `RateLimit.dfy` | the token bucket over real numbers, and its garbage collector |
| `Attempts.dfy` | the sliding-window lockout with its in-place compaction |
| `Sessions.dfy` | the terminal registry, with creations that check and insert in separate steps |
| `Alerts.dfy` | the debounced alert engine and its bounded buffer |
| `Hub.dfy` | the WebSocket hub as a goroutine over bounded queues, interleaved with its pumps |
| `Framing.dfy` | the batching write pump and the app's `_onMessage` that undoes it |
| `LineWriter.dfy` | the log line splitter, and two of them over one counter |
| `PathConfine.dfy` | lexical cleaning, the string test for containment, the ancestor walk through links, `Resolve` |
| `FileTree.dfy` | a file tree without links: `MkdirAll`, directory listings, `EvalSymlinks` on it |
| `TreeCopy.dfy` | `Copy`, `copyDir` and `copyFile` over a mutable file tree, and where the recursion ends |
| `Text.dfy` | `strings.Split`, `strings.Join` and `bytes.IndexByte`, and how they undo each other |
| `Wrappers.dfy` | optional values |

Conventions. A class follows a source object; each method is proved against the function on values,
or the step of a state machine, that the theorems are about. Clocks are parameters that do not go back,
floats are reals, and a hash, device ID, session ID or random token is a parameter that is assumed
new where it is generated. Two readings of the clock within one operation are taken as one.

## What the proofs found

- **An enrolment made on the command line can get lost.** `handleEnroll` reloads the file to pick
  such enrolments up (the comment at agent/internal/server/handlers.go:59-60 says so), but `handleRefresh`
  and `handleRevoke` write the agent's own list without reading the file. `AuthServer.EnrolmentPickedUp`
  gives the exact condition.
- **`Cleanup(maxAge)` of the limiter is invisible exactly if `maxAge * rate >= burst`**
  (`RateLimit.CleanupInvisibleIff`). The server never calls it.
- **A copy can damage its own source.** Onto itself it empties every file, because `copyFile`
  truncates the destination before it reads the source; out of a directory into the one around it,
  it can write into what it copies. `TreeCopy.SourceSurvivesIff` gives the exact condition for every
  successful copy, `TreeCopy.SelfCopyEmpties` and `TreeCopy.OutwardCopyAdds` one input for each case.
- **`copyDir` ends exactly if the destination is not strictly inside the source**
  (`TreeCopy.ReturnsIff`). Otherwise no run ever succeeds, and one that meets no error goes on
  for ever (`TreeCopy.NeverEnds`, `TreeCopy.DirsStopNothing`).
- **A ping can bring the agent down**: the read pump answers it on the client's send channel, which
  is closed once the hub has dropped the client for a full queue or has stopped.
  `Hub.PingCrashesIff` gives the exact condition, `Hub.DroppedThenPing` and `Hub.StoppedThenPing` a run
  for each case.
- **With `/` as a root, nothing but `/` is accepted**, because the test looks for the prefix `//`
  (`PathConfine.ContainsIff`, `PathConfine.RootDirectoryAdmitsItself`).
- **A device ID with a colon never validates** (`Signer.RoundTrip`); generated IDs have none.
- **The app's lock and the arrival of every answer are both needed.** Without the lock two calls
  for the same server get its device revoked, and two calls for different servers do not
  (`RefreshProtocol.WithoutTheLock`): the one lock for all servers is more than is needed. After a
  lost answer the next refresh revokes the app's own device exactly if the lost request had been
  granted, and otherwise that request does so when it is handled (`RefreshProtocol.WithoutTheAnswer`).
- The comment at agent/internal/server/handlers.go:76 says an enrolment token cannot be reused; the code
  looks only at existence and expiry, and README.md:218 says it can be. The model follows the code.

## Model

| member | source | states |
|---|---|---|
| TokenFamilies.RunRefines | agent/internal/auth/store.go:216-347 | in every run from the empty store with new devices and hashes, the record list and device registry stand for exactly the families (live token, spent set, revoked flag) the same run builds, and each rotation answers as the families say |
| TokenFamilies.StepRefines | agent/internal/auth/store.go:216-347 | every single operation of the store is one operation on the families, with the same answer |
| TokenFamilies.OneLiveToken | agent/internal/auth/store.go:321-375 | a device has at most one unspent record, revoked records are spent, a device's records are all revoked or none is, and then its family is |
| TokenFamilies.OwnerIsRecord | agent/internal/auth/store.go:219-226 | the first record with a hash is good exactly when the hash is the live, unexpired token of a family, and then of the record's device |
| TokenFamilies.FamiliesAreDetermined | agent/internal/auth/store.go:34-41 | a record list stands for at most one assignment of families |
| TokenFamilies.RegistryStep | agent/internal/auth/store.go:321-360 | after any operation exactly the devices whose family is not revoked are registered |
| TokenFamilies.RunDevices | agent/internal/auth/store.go:216-239 | in every reachable state the registry is, device by device, what the run says: name and date of its enrolment, last seen then or at its latest granted rotation, and gone once revoked |
| TokenFamilies.EnrolmentsUntouched | agent/internal/auth/store.go:216-239 | rotating, revoking and adding devices and records leave the enrolments alone |
| AuthStore.Store.constructor | agent/internal/auth/store.go:68-98 | the new store holds the file's lists, or none if there is no file |
| AuthStore.Store.Reload | agent/internal/auth/store.go:119-144 | the file replaces memory, and without a file memory stays |
| AuthStore.Store.Persist | agent/internal/auth/store.go:148-170 | the file becomes what is in memory |
| AuthStore.Store.RotateRefreshAtomic | agent/internal/auth/store.go:216-239 | answer and whole new state: the first record with the hash, if unspent, unrevoked and in date, is spent, a successor for the same device appended and the device touched; otherwise nothing changes |
| AuthStore.Store.RefreshByHash | agent/internal/auth/store.go:276-306 | the first record with the hash, or none |
| AuthStore.Store.EnrollByHash | agent/internal/auth/store.go:258-267 | the first enrolment with the hash, or none |
| AuthStore.Store.MarkEnrollmentUsed | agent/internal/auth/store.go:247-256 | only the first enrolment with the hash is marked |
| AuthStore.Store.AddEnrollment | agent/internal/auth/store.go:241-245 | one unused enrolment is appended and nothing else changes |
| AuthStore.Store.AddRefresh | agent/internal/auth/store.go:269-274 | one good record is appended and its device touched |
| AuthStore.Store.AddDevice | agent/internal/auth/store.go:355-359 | one device is appended and nothing else changes |
| AuthStore.Store.RevokeDevice | agent/internal/auth/store.go:321-337 | every record of the device, and no other, is revoked and spent, and the device leaves the registry |
| AuthStore.Store.RevokeAll | agent/internal/auth/store.go:339-347 | every record is revoked and spent and the registry is empty |
| AuthStore.Store.IsDeviceRevoked | agent/internal/auth/store.go:362-375 | true exactly if the device has records and all of them are revoked |
| AuthStore.WithoutKeepsOthers | agent/internal/auth/store.go:330-336 | the filtered registry has the other devices, each as often as before, and nothing else |
| AuthStore.WithoutKeepsOrder | agent/internal/auth/store.go:330-336 | filtering goes part by part, so the kept devices stay in order |
| RefreshProtocol.AppNeverTriggersReuse | app/lib/data/repositories/server_repository_impl.dart:354-392 | over every interleaving in which answers arrive and tokens are in date: at most one refresh is in flight, the token waiting to be rotated is its device's only unspent one, no refresh of the app is refused, and no device of the app is revoked or about to be |
| RefreshProtocol.RunGuarded | app/lib/data/repositories/server_repository_impl.dart:354-392 | the invariant behind it holds in every state: only the lock holder is active, everybody else's requests carry foreign tokens, and each device's newest token is live |
| RefreshProtocol.GuardedStep | app/lib/data/repositories/server_repository_impl.dart:354-392 | each kind of step keeps that invariant |
| RefreshProtocol.GuardedOwnRotate | agent/internal/server/handlers.go:143-148 | the rotation the app asked for is granted and leaves the new token as the device's live one |
| RefreshProtocol.WithoutTheLock | app/lib/data/repositories/server_repository_impl.dart:355-359 | in any calm run in which one call holds the lock and another waits: if the other went ahead, both requests would be handled, and a device revoked if and only if the two calls are for the same server |
| RefreshProtocol.LockIsContended | app/lib/data/repositories/server_repository_impl.dart:355-359 | a calm run from the start in which one call holds the lock and another waits for the same server |
| RefreshProtocol.WithoutTheAnswer | app/lib/data/repositories/server_repository_impl.dart:367-391 | in any calm run, at any moment while a request of the app is out: if its answer is lost, the app's next refresh revokes its own device if and only if the lost request has been granted; if it has not, that refresh is granted and the lost request revokes the device when it is handled |
| RefreshProtocol.AnswerIsOnItsWay | app/lib/data/repositories/server_repository_impl.dart:367-371 | a calm run from the start in which the app's request has been granted and the answer is not there yet |
| RefreshProtocol.RunPending | app/lib/data/repositories/server_repository_impl.dart:369-377 | in every calm run, while a granted successor is not saved yet, the stored token is a spent token of its device |
| RefreshProtocol.RefusedRevokes | agent/internal/server/handlers.go:148-157 | handling a request with a known but unusable token ends with the token's device revoked |
| RefreshProtocol.SpentTokenIsFinal | agent/internal/server/handlers.go:148-157 | once a request with a spent token has been answered, its device is revoked in every later state and no rotation for it ever succeeds, whatever ran between and after the handler's three steps |
| RefreshProtocol.ConvictsForever | agent/internal/server/handlers.go:148-157 | a handler on its way to revoke a device is not thrown off by any other step |
| RefreshProtocol.RevokedForever | agent/internal/auth/store.go:321-347 | a revoked device stays revoked, whatever happens |
| RefreshProtocol.RunConsistent | agent/internal/auth/store.go:216-347 | every reachable state of the interleaved protocol has records that stand for families, hashes all made or presented before, and pending rotations with distinct unused successors |
| RefreshProtocol.RunLockOk | app/lib/data/repositories/server_repository_impl.dart:355-391 | in every run, refusals and revocations included: a held lock belongs to the one active call, a call that has returned holds none, and whenever no call is active every waiting call can take it |
| RefreshProtocol.NobodyWaitsForEver | app/lib/data/repositories/server_repository_impl.dart:355-391 | in every run, from every state, at most six steps lead to one in which a given waiting call can take the lock |
| RefreshProtocol.RequestRevokes | agent/internal/auth/store.go:321-347 | a known device is revoked after a revocation of it and after one of everything |
| RefreshProtocol.EnrolsAlike | agent/internal/server/handlers.go:72-98 | the app's enrolment is the two steps of the enrolment handler, one after the other |
| AppRepository.ServerRepository.TryLock | app/lib/data/repositories/server_repository_impl.dart:355-359 | the lock is taken exactly when it is free, and the fields are then those of the protocol's next state |
| AppRepository.ServerRepository.Post | app/lib/data/repositories/server_repository_impl.dart:361-371 | the stored token is what is sent; if there is none, or it is empty, or the server cannot be looked up, the call returns and frees the lock |
| AppRepository.ServerRepository.OnResponse | app/lib/data/repositories/server_repository_impl.dart:369-391 | the fields afterwards: a grant is kept for saving with the lock still held; a refusal returns, frees the lock and leaves the tokens |
| AppRepository.ServerRepository.SaveTokens | app/lib/data/repositories/server_repository_impl.dart:376-377 | the granted token replaces the server's stored one, as in the protocol's step |
| AppRepository.ServerRepository.Finish | app/lib/data/repositories/server_repository_impl.dart:382-391 | the call returns and the lock is free |
| AppRepository.ServerRepository.AddServer | app/lib/data/repositories/server_repository_impl.dart:79-116 | the enrolment's token is stored under the new server |
| AuthServer.Server.HandleEnroll | agent/internal/server/handlers.go:40-116 | memory, file and answer afterwards: reload, then refuse an unknown or expired token, or add device and record, mark the enrolment and write the file |
| AuthServer.Server.HandleRefresh | agent/internal/server/handlers.go:118-178 | memory, file and answer afterwards: rotate, or on failure revoke the device of the token if it is known; the file is written either way |
| AuthServer.Server.HandleRevoke | agent/internal/server/handlers.go:180-193 | the device is revoked in memory and on file |
| AuthServer.RefreshIsProtocol | agent/internal/server/handlers.go:143-157 | the refresh handler on memory is the protocol's three handler steps with nothing between: the same state, also on file, and tokens are answered exactly if those steps grant them |
| AuthServer.EnrolIsProtocol | agent/internal/server/handlers.go:66-103 | an accepted enrolment leaves the records and devices that the protocol's enrolment leaves |
| AuthServer.RevokeIsProtocol | agent/internal/server/handlers.go:187-191 | the revocation handler on memory is the protocol's step, and the file is the same |
| AuthServer.ReuseRevokes | agent/internal/server/handlers.go:149-157 | a known token that is spent, revoked or past its expiry is refused, and its device is revoked in memory and on file |
| AuthServer.UnknownRefused | agent/internal/server/handlers.go:149-157 | an unknown token is refused and nothing in memory changes |
| AuthServer.RevokedForGood | agent/internal/server/handlers.go:118-193 | a device revoked in memory and on file stays so through every run of handlers, command-line enrolments and restarts that does not enrol its ID again; no refresh succeeds for it and the gate serves no access token as it |
| AuthServer.RevokedOnRequest | agent/internal/server/handlers.go:187-191 | a device that revokes itself is revoked in memory and on file, and whether another is revoked or registered does not change |
| AuthServer.EnrolAccepted | agent/internal/server/handlers.go:66-103 | after an accepted enrolment the device is registered, its token rotates exactly up to its expiry, the first enrolment with the hash is marked, and the rest is as loaded |
| AuthServer.EnrolRefused | agent/internal/server/handlers.go:59-70 | a refused enrolment leaves memory as loaded and the file as it was |
| AuthServer.RunEnroll | agent/cmd/qwe1-agent/main.go:62-82 | the file gains one enrolment on top of what it held; the running agent's memory is not touched |
| AuthServer.MemoryIsDisk | agent/internal/auth/store.go:116-170 | over every run of handlers, command-line enrolments and restarts, memory and file agree on records and devices, so a reload brings back no spent or revoked token and no removed device |
| AuthServer.EnrolmentPickedUp | agent/internal/server/handlers.go:59-70 | a command-line enrolment is accepted by a later `handleEnroll` if and only if it is in date and no refresh or revoke handler has written the file before the first handler or restart that reads it |
| AuthServer.Server.AuthMiddleware | agent/internal/server/authmw.go:81-110 | which of the six outcomes a request gets, and that the limiter is charged exactly if there is a token |
| AuthServer.GenuineTokenServed | agent/internal/server/authmw.go:81-110 | a device's own token is served if and only if the limiter grants it, it is not past its expiry and the device is not revoked |
| AuthServer.GateIff | agent/internal/server/authmw.go:81-110 | for every text: service as a device exactly if the text carries the correct code of it and of a time not passed, the limiter grants it and the device is not revoked; and each of the five refusals exactly in its own case |
| AuthServer.WrongTokensRefused | agent/internal/server/authmw.go:93-101 | a genuine token past its expiry gets the expired error, and any text with a wrong code the invalid one |
| AuthServer.SpentTokenShutsOut | agent/internal/server/authmw.go:93-106 | after a spent refresh token has been answered, the gate serves no access token, whoever made it, as that device for the rest of the run |
| Signer.RoundTrip | agent/internal/auth/signer.go:43-92 | for every secret, device and expiry, a generated token validates to its device up to the expiry and to the expired error after it; a device ID with a colon makes it invalid, and nothing else does |
| Signer.AcceptedIsSigned | agent/internal/auth/signer.go:52-92 | an accepted token carries the code of exactly the accepted device and of an expiry that has not passed |
| Signer.ValidateIff | agent/internal/auth/signer.go:52-92 | the three verdicts on every text, by what it carries: accepted as a device exactly with the correct code over it and a time not passed, expired exactly with the correct code and a passed time, invalid otherwise |
| Signer.DecodeEncode | agent/internal/auth/signer.go:49-67 | decoding undoes unpadded base64url encoding, and the encoding has no dot |
| Signer.AlphabetIsStandard | agent/internal/auth/signer.go:43-49 | the alphabet is that of table 2 in section 5 of RFC 4648 |
| Signer.GroupsAreNumbers | agent/internal/auth/signer.go:43-49 | three bytes and their four sextets are the same number, and one or two left-over bytes are filled up with zero bits |
| Signer.ParsePrint | agent/internal/auth/signer.go:84-87 | 64-bit parsing undoes decimal printing, negative numbers included |
| Signer.DigitsAreDecimal | agent/internal/auth/signer.go:43-45 | numbers are printed in base ten, highest digit first, negative ones with a sign |
| RateLimit.GrantedExactly | agent/internal/ratelimit/ratelimit.go:40-61 | a call is granted if and only if with it the tokens granted since each earlier call of its key, and since itself, stay within burst plus rate times the time elapsed |
| RateLimit.BucketIsLeastRoom | agent/internal/ratelimit/ratelimit.go:48-60 | the level of a bucket is the least room any window of its key leaves, and a bucket exists exactly if its key has been asked for |
| RateLimit.WindowBound | agent/internal/ratelimit/ratelimit.go:40-61 | no window of any run grants more than burst plus rate times its length |
| RateLimit.CleanupUnseen | agent/internal/ratelimit/ratelimit.go:63-73 | with `maxAge * rate >= burst`, cleaning up anywhere in a run changes no answer for any key |
| RateLimit.CleanupInvisibleIff | agent/internal/ratelimit/ratelimit.go:63-73 | `maxAge * rate >= burst` is exactly when no run can tell the limiter that cleans up from the one that never forgets |
| RateLimit.CleanupSeen | agent/internal/ratelimit/ratelimit.go:63-73 | below that bound, a run of three events that gets different answers |
| RateLimit.Limiter.Take | agent/internal/ratelimit/ratelimit.go:40-61 | answer and all buckets afterwards |
| RateLimit.Limiter.Cleanup | agent/internal/ratelimit/ratelimit.go:64-73 | exactly the buckets last used before the cutoff are gone |
| Attempts.FailAgrees | agent/internal/auth/attempts.go:45-66 | over any history, `Fail` answers true if and only if the failures in the window since the last lockout or success, with this one, reach the maximum |
| Attempts.PruningIsSafe | agent/internal/auth/attempts.go:49-58 | the pruned list still counts the same failures as the full history for any later window |
| Attempts.LockedAgrees | agent/internal/auth/attempts.go:31-42 | `Locked` holds if and only if some lockout is running that no success has cleared |
| Attempts.StoredBelowMax | agent/internal/auth/attempts.go:58-65 | with a maximum of at least one the stored list stays below it |
| Attempts.CompactInPlace | agent/internal/auth/attempts.go:51-57 | compaction within the one array leaves the recent failures in order at its front |
| Attempts.AttemptTracker.Fail | agent/internal/auth/attempts.go:45-66 | answer and entry of the key afterwards, other keys untouched |
| Attempts.AttemptTracker.Locked | agent/internal/auth/attempts.go:31-42 | answer, and that an expired lockout is forgotten, other keys untouched |
| Attempts.AttemptTracker.Success | agent/internal/auth/attempts.go:68-73 | the key is as new, other keys untouched |
| Sessions.Bound | agent/internal/terminal/terminal.go:146-254 | with at most k creations in flight, interleaved with kills, sweeps and activity, the registry never holds more than max - 1 + k sessions, and never more than max when creations run one at a time |
| Sessions.Manager.Sweep | agent/internal/terminal/terminal.go:239-254 | exactly the sessions idle longer than the limit are reported and go, as in the machine's step |
| Sessions.SweptIff | agent/internal/terminal/terminal.go:239-254 | over every run a sweep ends exactly the live sessions whose last creation or activity is longer ago than the limit |
| Sessions.RunTouched | agent/internal/terminal/terminal.go:104-115 | in every run a live session carries the time of its last creation or activity |
| Sessions.EndsOnlyBy | agent/internal/terminal/terminal.go:211-254 | a live session ends by a kill of its own, a kill of all or a sweep that finds it idle too long, and by nothing else |
| Sessions.Manager.Kill | agent/internal/terminal/terminal.go:211-222 | the machine's step is taken, and the error says exactly if the session was not there |
| Sessions.Manager.KillAll | agent/internal/terminal/terminal.go:225-236 | every session is handed over to be killed, and the registry is as after the machine's step |
| Sessions.Manager.Check | agent/internal/terminal/terminal.go:150-155 | a creation goes on exactly if the machine's step that begins one is enabled, and it is then in flight |
| Sessions.Manager.Insert | agent/internal/terminal/terminal.go:196-199 | one creation in flight is completed, whatever the registry holds by then |
| Alerts.AlertedExactly | agent/internal/alerts/alerts.go:178-205 | a check raises an alert if and only if it is the first sample of a maximal run of breaches to come `ForSeconds` or more after the run's first, whatever other keys, containers and acknowledgements do, even if thresholds change |
| Alerts.OneAlertPerLongRun | agent/internal/alerts/alerts.go:178-205 | a run that lasts long enough has raised exactly one alert |
| Alerts.TracksAll | agent/internal/alerts/alerts.go:183-204 | in every state the tracked start of a key is the first sample of its running breach, and the key is active exactly if that run has come long enough |
| Alerts.BufferOfRun | agent/internal/alerts/alerts.go:118-175 | in every run the buffer is, up to acked flags, the last `maxBuffer` emitted alerts in order, acked never goes back, and a container that is not down has only acked down-alerts |
| Alerts.NewestReverses | agent/internal/alerts/alerts.go:148-163 | without a severity the list is the whole buffer backwards |
| Alerts.NewestFilters | agent/internal/alerts/alerts.go:148-163 | with one, exactly the alerts of that severity remain, in the same order |
| Alerts.SampleKeys | agent/internal/alerts/alerts.go:99-115 | a host sample never uses the type of container alerts as a key |
| Alerts.SampleDecides | agent/internal/alerts/alerts.go:99-106 | cpu, memory and swap: what a sample makes of each key is the judgement of its own reading against its own rule, whatever else is in the sample |
| Alerts.NamedDecides | agent/internal/alerts/alerts.go:107-114 | the same for each disk and each sensor whose name no other of its kind has |
| Alerts.SampleAlerts | agent/internal/alerts/alerts.go:99-115 | every alert a sample raises is about a reading of it that breaches its own rule, with that rule's severity and the sample's time |
| Alerts.Engine.EvaluateHost | agent/internal/alerts/alerts.go:99-115 | the state after a sample is that after its checks in order: cpu, memory, swap, each disk, each sensor |
| Alerts.Engine.CheckRule | agent/internal/alerts/alerts.go:178-205 | buffer, tracking and emitted alerts after one check |
| Alerts.Engine.EmitLocked | agent/internal/alerts/alerts.go:213-227 | the alert is emitted and appended, and the buffer cut to its last `maxBuffer` |
| Alerts.Engine.ContainerDown | agent/internal/alerts/alerts.go:118-133 | a container already down changes nothing; otherwise it is down and one alert is emitted |
| Alerts.Engine.ContainerUp | agent/internal/alerts/alerts.go:136-145 | the container is up, and exactly its down-alerts are acknowledged |
| Alerts.Engine.Ack | agent/internal/alerts/alerts.go:166-175 | the first alert with the ID is acknowledged and nothing else changes |
| Alerts.Engine.List | agent/internal/alerts/alerts.go:148-163 | the filtered buffer, newest first, cut at a positive limit |
| Hub.RunSafe | agent/internal/server/ws.go:45-97 | in every interleaving no send channel is closed twice, none the hub sends on is closed, and no queue exceeds its capacity |
| Hub.DeliveredExactly | agent/internal/server/ws.go:70-82 | in every interleaving a client still registered has been given, in order and without gap, exactly the broadcasts the hub reached it with while it was subscribed to their channel; a dropped one a prefix of them |
| Hub.NothingLost | agent/internal/server/ws.go:69-97 | in every run the broadcasts taken so far and then those still waiting are exactly those accepted, in order; one is accepted exactly if fewer than the capacity were waiting |
| Hub.PublishedToQueued | agent/internal/server/ws.go:57-97 | between two broadcasts a registered client that has kept its channels has been given exactly the accepted broadcasts on its channels taken since it came, in order |
| Hub.RegisteredIff | agent/internal/server/ws.go:48-82 | a client is registered exactly from its registration until a step other than the stop closes its channel |
| Hub.SubscribedIff | agent/internal/server/ws.go:136-182 | a client's channels are those it came with, changed by its own subscriptions and unsubscriptions in order |
| Hub.PingCrashesIff | agent/internal/server/ws.go:161-165 | a ping of a client ends in a send on a closed channel if and only if the hub has dropped that client before for its full queue, or has stopped with it still registered |
| Hub.ClosedIff | agent/internal/server/ws.go:48-82 | closed are exactly the channels that some step of the run has closed |
| Hub.RunCrashesIff | agent/internal/server/ws.go:161-165 | a run has crashed if and only if its last step is such a ping |
| Hub.DroppedThenPing | agent/internal/server/ws.go:76-77 | a run in which a client is dropped for its full queue and its next ping crashes |
| Hub.StoppedThenPing | agent/internal/server/ws.go:48-54 | a run in which a client pings after the hub has stopped, and crashes |
| Hub.ReachedOnce | agent/internal/server/ws.go:70-82 | each broadcast reaches every client registered when it was taken, exactly once |
| Hub.WSHub.Deliver | agent/internal/server/ws.go:70-82 | receiving a broadcast and looping over the clients takes exactly the machine's steps: one message taken from the queue, visits, finish |
| Hub.WSHub.VisitClient | agent/internal/server/ws.go:73-80 | one turn of the loop is the machine's visit of that client |
| Hub.WSHub.Register | agent/internal/server/ws.go:57-60 | hub and clients are as after the machine's registration |
| Hub.WSHub.Unregister | agent/internal/server/ws.go:62-68 | hub and clients are as after the machine's step: a registered client leaves and is closed once, another is left alone |
| Hub.WSHub.Stop | agent/internal/server/ws.go:48-54 | hub and clients are as after the machine's last step: every registered client is closed once more |
| Hub.WSHub.Broadcast | agent/internal/server/ws.go:86-97 | the message is appended to the hub's queue if that is not full, and dropped otherwise, as in the machine's step |
| Framing.UndoneExactly | app/lib/data/sources/remote/web_socket_client.dart:118-125 | however the queue was batched into frames, the app's lines are the queued messages in order, each once, if and only if every message is non-empty and without raw newlines |
| Framing.EndToEnd | app/lib/data/sources/remote/web_socket_client.dart:118-132 | every channel's stream gets exactly the payloads queued for it, in order |
| Framing.WritePump.WriteFrame | agent/internal/server/ws.go:191-211 | one frame takes at least what was queued when it began, keeps order, loses nothing, and never waits in the drain loop, however much others queue meanwhile |
| Framing.WebSocketClient.OnMessage | app/lib/data/sources/remote/web_socket_client.dart:118-138 | the controllers afterwards: the non-empty lines of a text frame are delivered one by one, a binary frame goes to all |
| LineWriter.CutsDoNotMatter | agent/internal/docker/docker.go:290-310 | however two streams are cut and interleaved, each yields exactly the trimmed lines of its whole text, each buffer is the rest after the last newline, and all lines are numbered 1, 2, 3, ... modulo 2^64 |
| LineWriter.LineWriter.Write | agent/internal/docker/docker.go:297-310 | result, buffer, emitted lines and counter in terms of the text buffered before plus the chunk |
| LineWriter.Extend | agent/internal/docker/docker.go:297-310 | what a longer text completes is what its prefix completes, then what the prefix's rest completes with the addition |
| LineWriter.TrimLen | agent/internal/docker/docker.go:303-303 | trailing carriage returns, all of them and nothing else, are cut |
| LineWriter.TrimCR | agent/internal/docker/docker.go:303-303 | a line keeps everything but its trailing carriage returns |
| LineWriter.LinesAreText | agent/internal/docker/docker.go:297-310 | lines and rest are the one way to take a text apart: they are newline-free, and joined by newlines they are the text |
| PathConfine.Confined | agent/internal/files/files.go:425-492 | for roots other than `/`, an accepted path is clean, has a root as a prefix by components, is its own real path as far as it exists, and from there on is missing |
| PathConfine.ResolveIff | agent/internal/files/files.go:425-492 | the answer to every request, links included: forbidden if the path asked for is outside the roots or ends in a hidden name; else its longest existing part is replaced by what it really is, and the result is the answer if it lies in a root and forbidden otherwise; an error exactly if no part of it can be found |
| PathConfine.CleaningLaws | agent/internal/files/files.go:433-433 | what cleaning makes of any text and one more piece: ".." leads to the parent and stays at the root, "." and nothing lead nowhere, a name leads there |
| PathConfine.AbsoluteIsAsked | agent/internal/files/files.go:426-433 | what is resolved is the cleaned path asked for, taken from the first root if it is empty or relative |
| PathConfine.WithinIff | agent/internal/files/files.go:458-466 | the containment test holds exactly if some root is a prefix by components, a root directory admitting itself only |
| PathConfine.HiddenIff | agent/internal/files/files.go:439-444 | a name is hidden exactly if it begins with a dot |
| PathConfine.DotDotResolves | agent/internal/files/files.go:425-456 | one more ".." resolves as the parent of the path does |
| PathConfine.ContainsIff | agent/internal/files/files.go:458-466 | on clean paths the string test holds if and only if the root is a prefix by components, or root and path are both `/` |
| PathConfine.ResolveAgain | agent/internal/files/files.go:425-456 | resolving an accepted path again gives the same path, unless hidden names are refused and it ends in one |
| PathConfine.RootDirectoryAdmitsItself | agent/internal/files/files.go:458-466 | with `/` as the only root nothing but `/` is accepted |
| PathConfine.ResolveAncestor | agent/internal/files/files.go:475-492 | the loop ends, and its answer splits the path at the longest prefix that exists, the rest being missing |
| PathConfine.Manager.Resolve | agent/internal/files/files.go:425-456 | the answer, in the cases and with the errors that `PathConfine.ResolveIff` gives |
| PathConfine.ComponentsRender | agent/internal/files/files.go:434-434 | joining components and splitting them again undo each other, so a clean path stays as it is |
| TreeCopy.ReturnsIff | agent/internal/files/files.go:259-286 | the recursion comes back from every tree, whatever the order of listings, if and only if the destination is not strictly inside the source |
| TreeCopy.DirEnds | agent/internal/files/files.go:270-283 | it does so before more calls are nested than there are levels below the source, also when the source lies inside the destination |
| TreeCopy.NeverEnds | agent/internal/files/files.go:264-280 | with the destination strictly inside the source no run succeeds, for every number of nested calls it may make |
| TreeCopy.DirsStopNothing | agent/internal/files/files.go:259-286 | among directories only no run is stopped by an error either, so there it runs out of any number of nested calls |
| TreeCopy.RoomIsEnough | agent/internal/files/files.go:259-286 | a run that comes back is the same whatever more calls it may nest |
| TreeCopy.DirMeaning | agent/internal/files/files.go:259-286 | what a successful copy leaves at every single path, if it goes onto itself or whatever it writes into its source is there already: so for disjoint paths always, and for a source inside its destination if they agree |
| TreeCopy.DisjointUndisturbed | agent/internal/files/files.go:259-286 | a copy between disjoint paths writes nothing into its source |
| TreeCopy.DirectoryCopied | agent/internal/files/files.go:259-286 | after a successful copy elsewhere that leaves its source undisturbed the destination is the source laid over what was there, the source is as before, and nothing else changed but directories on the way |
| TreeCopy.DirCopies | agent/internal/files/files.go:259-286 | after any successful copy to another place, also one that changes its source, everything that was in the source is at the destination, as it was before or as it is afterwards |
| TreeCopy.SucceedsIff | agent/internal/files/files.go:236-286 | if it does not disturb its source, a copy that meets no I/O error succeeds if and only if the source is a directory, no file is in the way of the destination, and no directory meets a file |
| TreeCopy.FileSucceedsIff | agent/internal/files/files.go:236-257 | a file copy that meets no I/O error succeeds exactly if the source is a file, the destination is no directory and no file is on the way to it |
| TreeCopy.CopiedOntoItself | agent/internal/files/files.go:236-286 | a directory copied onto itself keeps its shape, every file in it is empty, and nothing else changed |
| TreeCopy.SourceSurvivesIff | agent/internal/files/files.go:259-286 | after any successful directory copy the source is unchanged if and only if, copied onto itself, there is nothing in its files, and copied elsewhere, every node it writes into its own source is there already |
| TreeCopy.SelfCopyEmpties | agent/internal/files/files.go:236-286 | a directory with one file whose copy onto itself succeeds and empties the file |
| TreeCopy.OutwardCopyAdds | agent/internal/files/files.go:259-286 | a directory whose copy to the one around it succeeds and adds to the source |
| TreeCopy.FileSurvivesIff | agent/internal/files/files.go:236-257 | a copied file is unchanged, and the copy equal to what it was, if and only if it was not copied onto itself or was empty |
| TreeCopy.FileMeaning | agent/internal/files/files.go:236-257 | after a successful file copy the destination is the source as it was, or empty if they are the same, directories lead to it, and nothing else changed |
| TreeCopy.FileSystem.CopyDir | agent/internal/files/files.go:259-286 | wherever the recursion comes back: success or not, nothing outside the destination changes but new directories on the way; on success the tree is what the run without errors makes of it; and without I/O errors it succeeds exactly if that run does |
| TreeCopy.FileSystem.CopyFile | agent/internal/files/files.go:236-257 | the same for a file, which is truncated before its source is read; and a directory as destination, and nothing else, is refused as such |
| TreeCopy.FileSystem.Overwrite | agent/internal/files/files.go:249-256 | the destination holds the source as it was, or nothing if they are the same file; after an error, some text |
| TreeCopy.FileSystem.Copy | agent/internal/files/files.go:212-233 | refused, with nothing changed, exactly if a path does not resolve; else file or directory is copied between the resolved paths, for every pair of directories from which the recursion comes back; without I/O errors a missing source is reported exactly if it is missing, and success exactly if the copy succeeds |
| FileTree.MkdirMeaning | agent/internal/files/files.go:247-249 | after a successful `MkdirAll` everything on the way is a directory and nothing else has changed |
| FileTree.EvalInIsResolver | agent/internal/files/files.go:447-450 | a tree without links satisfies what confinement asks of `EvalSymlinks` |
| FileTree.ResolveWithoutLinks | agent/internal/files/files.go:425-456 | without links the answer is read off the path asked for: forbidden outside the roots or for a hidden name, an error through a file, and otherwise the path itself |

## Left out

- Interleavings of `Reload` with other store operations: it replaces memory by the file, so the interleaved protocol leaves it out, and the memory-and-disk claims take whole handlers as steps.
- Failures of `Persist`, of random generation and of token generation, and a state file that cannot be read or parsed.
- App crashes between two saves. Lost refresh responses are assumed away in `RefreshProtocol.AppNeverTriggersReuse`; `RefreshProtocol.WithoutTheAnswer` says what one does.
- RefreshProtocol.AppNeverTriggersReuse: the app may know several agents; the model has one store whose devices are told apart, and a token stands for its hash.
- AuthStore.Store.constructor: without the errors of an unreadable or malformed file and without the signer secret it may generate.
- AuthStore.Store.Reload: without the errors of an unreadable or malformed file, after which memory stays as it is.
- AuthStore.Store.Persist: without the error of a failed write, after which the file stays as it is.
- AppRepository.ServerRepository.AddServer: a server the app does not know yet; enrolling the URL of a known one again, which overwrites its tokens, is left out.
- AuthServer.MemoryIsDisk: does not cover the signer secret, because the running signer keeps the one read at the start.
- AuthStore.Store.RevokeDevice: the registry is filtered into a new list, not in the array it shares with the old one.
- `RotateRefresh`, `ValidateAccess`, `MarkRefreshUsed`, `DeviceCount` and the sorted device listing of the store: no authentication handler uses them or they only read.
- Signer.RoundTrip: does not claim that token texts are unique, as trailing bits and line breaks in them are not checked.
- RateLimit.WindowBound: over real numbers, without the rounding of floats.
- Attempts.CompactInPlace: works on a copy of the stored slice, so that the map still holding the old slice during the loop is not modelled.
- PathConfine.Confined: `EvalSymlinks` is any resolver with three defining properties, and a dangling link counts as missing, as it does for `EvalSymlinks`; where a later write through such a link lands is not modelled.
- PathConfine.ResolveAncestor: works on components; joining and taking the parent or base of a clean path are the operations on its component list.
- TreeCopy.FileSystem.CopyDir: file modes, links, which error stops a directory copy, and the reasons for I/O errors, which strike anywhere in a file system that has them; that listings are alphabetical (any fixed order will do).
- TreeCopy.DirMeaning: does not give the tree after a copy that disturbs its source, which depends on the order of listings; `TreeCopy.SourceSurvivesIff` says exactly when that is, and `TreeCopy.DirCopies` what holds even then.
- TreeCopy.SucceedsIff: the same, for when such a copy succeeds.
- Listing, searching, reading, uploading, renaming, deleting and favourites of the file manager: they add easy members over the same confinement.
- Alerts.Engine.ContainerDown: one step, though the source unlocks between marking and emitting; alert messages, contexts other than the container's name, and generated IDs are left out or parameters.
- Hub.DeliveredExactly: is about the hub's own sends; pongs queued by the read pump share the queue and are passed over.
- Framing.WritePump.WriteFrame: without the connection's errors, the ping ticker and the closing message; the JSON of a message is any text and its decoding any function.
- Sessions.Bound: the shell, its pseudo-terminal and the killing of processes are outside; a creation that fails is one that does not insert.
- Single use of enrolments: the code does not have it.
- HTTP routing, JSON, TLS and certificates, QR codes, logging, CORS, the Docker client, metrics sampling, the WebSocket reconnect limit, the audit ring, and all screens, widgets and generated code of the app: plumbing over libraries, user interface or easy members.
