# xdauth broker session system, modelled and proved in Dafny

`xdauth` lets a terminal log a person in through a browser on another device. A client starts a
session at the broker and polls it with a PKCE verifier; the person opens the session's link, signs
in at an identity provider, and approves by typing the code shown on the terminal. The broker
releases one artifact, to the poller that holds the verifier.

This project models the broker's session system and the client that polls it:

- `Session.dfy`: the session state machine, as functions on session values and as a mutable
  session object whose methods are proved equal to those functions.
- `Handlers.dfy`: the four browser and poll handlers as functions of one session, and serial runs
  of a session: requests, store sweeps and the passing of time.
- `SerialRuns.dfy`, `Expiry.dfy`: what holds of every serial run, and what different runs have in
  common (lazy and eager expiry, outsiders' operations deleted, sweeps deleted).
- `Interleaving.dfy`: many handlers on many sessions at once, each handler's fetch and write-back
  being separate steps, and what every interleaving keeps.
- `Isolation.dfy`: a session whose own handlers do not overlap, and that is not evicted under one of
  them, runs as if served alone, whatever the handlers of other sessions do; so single use, the
  accounts of code comparisons and finality carry over to it.
- `Outlook.dfy`, `Limits.dfy`: what can still happen to a session when its handlers do overlap, and so
  exactly when single use and the attempt limit hold from a moment on.
- `Overlap.dfy`: runs from nothing in which they do not hold.
- `PollRuns.dfy`: the polling client against the interleaved broker.
- `Decisions.dfy`: for every handler and every answer, exactly the sessions and requests that get it.
- `Login.dfy`: the honest path, amid anything else that gets nowhere with the session.
- `Journey.dfy`: from the answer to a start to the artifact, in terms of the request and the
  configuration.
- `Store.dfy`: the in-memory store over shared session objects, and Redis with key deadlines.
- `Broker.dfy`: the broker object, with the session store, the detector and the limiters.
- `Client.dfy`: the polling loop, run against the broker under arbitrary latencies and arbitrary
  activity of others.
- `Detector.dfy`, `RateLimit.dfy`, `ClientIp.dfy`: the abuse detector's fixed windows, the
  forgetting token buckets, and the walk over forwarded addresses.
- `UserCode.dfy`, `Pkce.dfy`, `Encoding.dfy`, `Text.dfy`: the codes, challenges and encodings that
  the checks compare.

Time is in integer nanoseconds. SHA-256 and the identity normalizer are parameters: the results
hold for every function in their place. Random values are parameters, and a failing random source
is one of their values. Where a result needs a clock that never goes back it says so (`Monotone`, `Forward`).

## Where the code and its documentation differ

The model follows the code.

- Single use (README.md:32, docs/rfc10027-compliance.md:30) is not unconditional. A handler fetches
  and writes back in two steps, and every poll and every resubmitted approval form writes its whole
  copy back. So two overlapping polls both collect (`OverlappingPollsBothCollect`); and any poll,
  even without the verifier, or resubmitted form that was fetched before the collection and is written
  back after it restores the uncollected session, so that two polls one strictly after the other both
  collect (`StrangerUndoesCollection`). From a moment on, a session is collected at most once in all
  if and only if it can no longer be reopened, and at most one of its collections is past or in the
  hands of handlers in flight (`SingleUseExactly`). It can be reopened if it is stored and open, or
  stored and some handler in flight would write back an open copy; `Reopens` lists such handlers by
  request and copy, and `CarriersExactly` proves the list exact.
- The limit of five code attempts is lost in the same ways: overlapping approvals all compare against
  the same count and one is charged (`ComparedManyTimes`), and a stranger's poll that spans a wrong
  code takes the charge back, so that even approvals one strictly after the other are unlimited
  (`ComparedOneByOne`). From a moment on, at most five codes are compared in all if and only if the
  session can no longer be reopened for approval, and the comparisons past and those in the hands of
  handlers in flight are at most five (`AttemptLimitExactly`).
- `ApprovedAt` in an artifact is the time the identity was bound, not the time of the approval
  (internal/broker/session.go:142, 235), and its lifetime runs from then. An artifact collected late
  can be past its own `ExpiresAt` (`ExpiredArtifactReleased`); `ReleasedUnexpired` says exactly when.
- docs/threat-model.md:62-66 says replayed polls of a consumed session are counted towards a threshold.
  `thresholdFor` gives that kind no threshold, so they are reported and never counted
  (internal/broker/detect.go:85-96; `ReplaysNeverCount`).
- A `wrong_code` event is not a wrong code: see `WrongCodeSignal`.
- The comment on `normalizeUserCode` promises that white space is stripped. Only outer white space,
  spaces and dashes are, in that order. So white space behind an outer dash breaks idempotence, and
  white space other than spaces where two texts meet breaks concatenation
  (`NormalizeNotIdempotent`), and nothing else does (`NormalizeIdempotentExactly`,
  `NormalizeConcatExactly`).

## Model

| member | source | states |
|---|---|---|
| SessionModel.HashBindingEqual | internal/broker/session.go:57-61 | a binding hash is never empty, and two are equal exactly when the digests are |
| SessionModel.Session.constructor | internal/broker/session.go:84-97 | a new session is pending, unbound, unpolled and unconsumed under its terms |
| SessionModel.Session.Copy | internal/store/store.go:133-134 | the copy holds the same values in an object of its own |
| SessionModel.Session.ExpireIfNeeded | internal/broker/session.go:106-118 | records exactly a due expiry of a non-terminal session, and reports whether the session is expired |
| SessionModel.Session.BindIdentity | internal/broker/session.go:131-157 | check 4 in place: expiry, state, identity match, CSRF failure, in that order, with the state each leaves |
| SessionModel.Session.Approve | internal/broker/session.go:163-188 | check 2 in place: expiry, state, browser binding, denial, code, attempt limit, in that order |
| SessionModel.Session.Poll | internal/broker/session.go:218-257 | check 1 in place: expiry, consumption, verifier, pacing, and the artifact released |
| SessionModel.Session.BeginLogin | internal/oidc/oidc.go:170-182 | stores the new leg's state, nonce and verifier, or nothing if they cannot be made |
| Decisions.LinkDecided | internal/broker/handlers.go:100-149 | for every sound session, visitor and time, which answer the link gives: expired, page, continue elsewhere, denied, approved, redirect or error, each exactly when |
| Decisions.ReloadedPageApproves | internal/broker/handlers.go:115-124 | a live session awaiting approval is shown on its link exactly to the browser that signed in; the page names who did, and its form, with the session's code from that browser in time, approves it |
| Decisions.CallbackDecided | internal/broker/handlers.go:176-204 | a reply that yields an identity on a live pending session: exactly when it is bound, a mismatch or not completed, the session each leaves, and the signal |
| Decisions.CallbackRefused | internal/broker/handlers.go:166-180 | any other reply: exactly when the answer is expired, already in progress or failed |
| Decisions.DefaultMatch | internal/broker/session.go:28-30 | with no normalizer configured, two identities match exactly if without outer white space they have equal length and agree character by character up to ASCII case |
| Decisions.DefaultCallbackDecided | internal/broker/session.go:137-147 | so a sign-in is bound exactly if identity and login hint agree that far, and otherwise denied and reported |
| Decisions.ConfiguredCallbackDecided | internal/broker/session.go:137-147 | with a normalizer configured, exactly if it agrees on the two |
| Decisions.FormDecided | internal/broker/handlers.go:231-263 | for every sound session and form, exactly which answer and signal it gets and whether the session is written back |
| Decisions.AnyCaseApproves | internal/broker/usercode.go:35-42 | the bound browser's form is accepted with the session's code in any mixture of cases |
| Decisions.PollDecided | internal/broker/handlers.go:285-328 | for every sound session, verifier and time, exactly which answer and signal a poll gets, and what it does to consumption and pacing |
| Decisions.MissingDecided | internal/broker/handlers.go:292-296 | an unknown session is not found, or to a poll expired |
| SerialRuns.HandleKeepsSound | internal/broker/handlers.go:100-328 | every handler keeps terms and invariant, and takes none of the branches only a broken session could reach; no poll dereferences a missing identity |
| SerialRuns.RunKeepsSound | internal/broker/session.go:131-257 | the invariant holds before and after every operation of every serial run, and no answer is a panic |
| SerialRuns.SingleUse | internal/broker/session.go:223-238 | in any serial run at most one approved answer, exactly one if the session ends consumed, and every later poll with any verifier says expired |
| SerialRuns.StateClimbs | internal/broker/session.go:106-187 | pending, awaiting approval, terminal: the state only climbs, so it changes at most twice and a terminal state never |
| SerialRuns.AttemptAccounting | internal/broker/session.go:159-188 | at most five code comparisons in any serial run; comparisons are the charged attempts plus one if approved; fewer than five charged while awaiting approval or approved; unbound browsers cost none |
| SerialRuns.WrongCodeSignal | internal/broker/handlers.go:246-260 | exactly when an approval raises the wrong-code signal: one of the first four wrong codes, or a resubmission to an approved session |
| SerialRuns.ArtifactDating | internal/broker/session.go:230-237 | a released artifact is dated within the session's life and expires its own lifetime later, however late it is collected |
| SerialRuns.ReleasedUnexpired | internal/broker/session.go:230-237 | a released artifact is still good at its release if and only if the release is within the artifact's lifetime of an earlier sign-in, whose time it carries |
| SerialRuns.CallbackCorrelation | internal/oidc/oidc.go:185-199 | an identity is attached, or stored even though the sign-in then fails, only by a reply with the state and nonce of the session's latest redirect, and never before any redirect |
| SerialRuns.NoCrossSessionCallback | internal/oidc/oidc.go:185-189 | with distinct issued states, a reply to one session's redirect neither attaches nor stores an identity on another session |
| Expiry.LazyIsEager | internal/broker/session.go:105-118 | under a monotone clock every answer equals that of a machine that expires sessions at the instant they are due, and the sessions agree once due expiry is recorded |
| Expiry.OutsiderStep | internal/broker/session.go:163-173 | a wrong-verifier poll, or an approval without the CSRF token or the bound browser, at most records an expiry already due |
| Expiry.NonInterference | internal/broker/session.go:218-242 | deleting all such operations from a run leaves every remaining answer unchanged, and the final sessions agree once due expiry is recorded |
| Expiry.EvictionInvisible | internal/store/store.go:107-117 | a run whose sweeps evict no informative session gives every poll the answer of a store that never sweeps |
| Expiry.EvictionInvisibleExactly | internal/broker/handlers.go:292-296 | evicting a session is invisible to all later polls if and only if it is neither denied nor approved and uncollected |
| Expiry.ReleaseMeansKept | internal/store/store.go:107-117 | an artifact released means no earlier sweep ran past the session's keeping time, which is twice its lifetime by `EvictedExactly` |
| Expiry.EvictedExactly | internal/store/store.go:107-117 | in any run, a session stored for ttl is gone at the end exactly if some sweep was later than its creation plus twice ttl |
| Interleaving.HandleAccounted | internal/broker/handlers.go:100-328 | whatever is new in a handler's copy is the doing of this very request: a sign-in of the matching identity in time, an approval with an equal code from the bound browser, a denial with its ground, a due expiry, or a collection; and the answer fits the copy fetched |
| Interleaving.AlwaysSafe | internal/broker/session.go:131-257 | under every interleaving of fetches, write-backs, starts and sweeps: every copy keeps its session's terms; its sign-in, its end and its collection each have an earlier cause; a page shows the session's terms and goes only to the browser that just signed in, the bound one, or one that knows the form's token; a poll's answer fits the copy it was computed from; no poll meets a missing identity |
| Interleaving.ReleaseIsEarned | internal/broker/session.go:227-238 | behind every artifact ever released, however handlers interleave: the poller's verifier hashes to the challenge, an earlier sign-in gave exactly this identity, matching the login hint, and dates the artifact, and between the two an approval with an equal code came from the browser that signed in, both before expiry |
| Interleaving.CallbackIsCorrelated | internal/oidc/oidc.go:170-199 | however handlers interleave, a callback gets past the correlation check only with the state and nonce of an earlier redirect of the same session |
| Interleaving.OnlyAcceptedRecords | internal/broker/handlers.go:155-190 | and only a callback that does records an identity |
| Interleaving.FinishAnswersExactly | internal/broker/handlers.go:141-147 | a handler whose session is gone answers as it would have, but for a redirect, which becomes an error: no browser is sent on a leg that is not stored |
| Isolation.Serialisable | internal/store/store.go:119-146 | if a session's own handlers do not overlap, and no sweep evicts it while one of them is in flight, it ends in the state of a serial run of its own operations, its requests having met the same sessions and got the same answers, however all other handlers interleave |
| Isolation.CollectedOnce | internal/broker/session.go:223-238 | such a session is collected at most once |
| Isolation.ComparedFiveTimes | internal/broker/session.go:159-188 | on such a session at most five codes are compared, each a charged attempt or the approval |
| Isolation.StateNeverFallsBack | internal/broker/session.go:106-187 | between any two moments the state of such a session stays or climbs, so a terminal state never changes |
| Outlook.CarriersExactly | internal/broker/handlers.go:100-328 | guards on the copy's state and the request say exactly which handlers, finishing at a given time, collect or compare, and which write back a session still open for that: polls, links with a new leg, replies matching leg and hint, forms with the token from another browser or approving without the last wrong code |
| Outlook.TimesExactly | internal/broker/handlers.go:166-328 | from any reachable world and time on, with a clock that never goes back, some continuation releases a session's artifact (given that some verifier passes), or compares its code, at least n more times if and only if the session can be reopened or n handlers in flight do it by themselves |
| Limits.SingleUseExactly | internal/broker/handlers.go:292-300 | from any reachable world and time on, every continuation keeps the session's collections at one in all if and only if it cannot be reopened and those past and those in flight are at most one |
| Limits.ReleaseIsLastExactly | internal/broker/handlers.go:292-300 | after a release, some continuation releases the artifact again if and only if another handler of the session then carries it, by the guards |
| Limits.AttemptLimitExactly | internal/broker/session.go:181-187 | from any reachable world and time on, every continuation keeps the session's code comparisons at five in all if and only if it cannot be reopened for approval and those past and those in flight are at most five |
| Limits.DenialIsLastExactly | internal/broker/session.go:181-187 | after a denial, as by the fifth wrong code charged, some continuation compares the session's code again if and only if another handler of the session then carries it, by the guards |
| Overlap.ApprovedCarriers | internal/broker/handlers.go:244-300 | of a stored approved session, the handlers that carry it are exactly the polls, with or without the verifier, and the approval forms with the session's token, that hold an uncollected copy |
| Overlap.OneMorePoll | internal/broker/handlers.go:292-300 | a handler that fetched an approved session and finishes after its collection, then a poll with the verifier: the artifact is released again if and only if the handler is such a one |
| Overlap.TwoPolls | internal/broker/handlers.go:292-300 | two polls with the verifier, in every order of their four steps: both collect if and only if neither finishes before the other fetches; else the second is told expired |
| Overlap.OverlappingPollsBothCollect | internal/broker/handlers.go:292-300 | a run from nothing in which two overlapping polls both collect, for every hash and normalizer |
| Overlap.StrangerUndoesCollection | internal/broker/handlers.go:298-308 | a run from nothing in which two polls, one strictly after the other, both collect, because a poll without the verifier spans the first |
| Overlap.ComparedManyTimes | internal/broker/handlers.go:236-249 | for every n, a run from nothing in which n codes are compared by overlapping approvals and one attempt is charged |
| Overlap.StrangerUndoesCharge | internal/broker/handlers.go:298-308 | on any session awaiting approval, a poll without the verifier that spans a wrong code leaves the stored session as it was, with its code compared once more |
| Overlap.ComparedOneByOne | internal/broker/handlers.go:236-308 | for every n, a run from nothing in which n codes are compared, by approvals one strictly after the other, and none is charged |
| PollRuns.PromiseUnderInterleaving | internal/broker/session.go:240-256 | however everyone's handlers interleave and overwrite: polls with a session's verifier that wait out the client's interval see at most two slow_downs (none for whole seconds or under one second), keep their spacing, and fit the client's budget |
| Login.NoiseRun | internal/broker/session.go:163-257 | polls before the approval, approvals without the token or the bound browser, callbacks with another state, visits that start no leg and early sweeps leave a session as it was, but for when it was last polled |
| Login.HonestLoginSucceeds | internal/broker/handlers.go:100-328 | link, sign-in, code and poll, each after any amount of such noise, get the redirect, the approval page, the approval and the artifact of that sign-in; the last has no deadline but eviction |
| Login.ApprovedWaits | internal/store/store.go:107-117 | however often the store sweeps within twice its lifetime, an approved session gives its verifier the artifact |
| Login.ExpiredArtifactReleased | internal/broker/session.go:110-112 | a run, for every hash, normalizer and lifetime, that releases an artifact already past its own expiry |
| Login.SecondVisitCutsIn | internal/oidc/oidc.go:170-199 | a further visit to the link while a sign-in is under way fails it, if and only if its leg has another state or nonce |
| Journey.StartedLoginSucceeds | internal/broker/handlers.go:71-328 | from a start that is answered with a session: a suiting login whose visit, sign-in and approval come within the configured lifetime of the start goes through, from a page that shows the request's client kind and host, its address and its client, to the artifact |
| Journey.StartedThenExpired | internal/broker/session.go:75-97 | a session still open is told expired to polls exactly after the configured lifetime from the start |
| Journey.StartedThenKept | internal/store/store.go:107-117 | and kept by sweeps for twice that lifetime from the start |
| Journey.StartedThenPaced | internal/broker/session.go:244-247 | its verifier is told to slow down exactly within the configured poll interval of the last accepted poll |
| Journey.AnnouncedTimes | internal/broker/handlers.go:90-97 | the announced durations are the configured ones in whole seconds, and the client polls at the announced interval, or three seconds if that is none |
| Journey.StartDecided | internal/broker/handlers.go:34-88 | exactly when a start is refused, and for what: client, request, network, tokens or randomness, in that order |
| Journey.ForeignAddressRefused | internal/broker/clientip.go:48-62 | where clients are gated, a start is refused exactly if the address it is attributed to is in no allowed prefix |
| Store.Memory.Create | internal/store/store.go:119-124 | files the caller's own object under its id |
| Store.Memory.Get | internal/store/store.go:126-135 | a fresh object with the stored value, or not found; the store is unchanged |
| Store.Memory.Update | internal/store/store.go:137-146 | replaces an existing session's value by a fresh copy of the caller's, or reports not found |
| Store.Memory.Sweep | internal/store/store.go:108-117 | deletes exactly the sessions past twice their lifetime |
| Store.MutateAfterCreate | internal/store/store.go:119-124 | after Create, a caller that mutates its object mutates the stored session |
| Store.MutateAfterGet | internal/store/store.go:126-146 | after Get and Update, it does not |
| Store.Redis.Write | internal/store/redis.go:69-82 | stores the value with the grace-window deadline, or a minute once that window is over |
| Store.Redis.Create | internal/store/redis.go:36-38 | a write, whatever was there |
| Store.Redis.Get | internal/store/redis.go:40-53 | the value of a key still within its deadline, else not found |
| Store.Redis.Update | internal/store/redis.go:56-65 | a write if the key is still live, else not found |
| Store.StoresAgree | internal/store/redis.go:55-82 | Memory and Redis give the same result to every operation on a session up to the end of its grace window, whatever happens to other sessions and whenever Memory sweeps |
| Store.MemoryKeeps | internal/store/store.go:107-117 | a sweep spares a session exactly up to its creation plus twice its lifetime |
| Store.RedisKeeps | internal/store/redis.go:69-82 | a session written inside that window is found exactly before its end, and one written after it for a minute |
| Broker.ServeStoredIsLocal | internal/broker/handlers.go:100-328 | an uninterrupted handler is one step of its session's serial run, and no other session changes |
| Broker.SignalsAreKeyed | internal/broker/handlers.go:189-308 | a mismatch is counted under the session's login hint, every other signal under the address |
| Broker.SignalsAreCounted | internal/broker/detect.go:59-70 | each signal adds one observation to its own counter, if its kind is counted, and none to any other |
| Broker.Broker.VerifyCopy | internal/broker/handlers.go:107-149 | the link handler on its copy: answer, mutation and whether it writes back |
| Broker.Broker.CallbackCopy | internal/broker/handlers.go:166-205 | the identity provider's response on its copy, with the mismatch signal |
| Broker.Broker.ApproveCopy | internal/broker/handlers.go:236-263 | the approval form on its copy, with the wrong-code signal |
| Broker.Broker.PollCopy | internal/broker/handlers.go:298-327 | the poll on its copy, with the replay signal |
| Broker.Broker.ServeFromStore | internal/broker/handlers.go:231-244 | fetch, serve and write back: the store's new contents, the answer and the signal with its key |
| Broker.Broker.Serve | internal/broker/handlers.go:285-328 | the same with the signal observed by the detector |
| Broker.Broker.PassGate | internal/broker/handlers.go:66-69 | a start spends a token of its address, and only then one of its login hint |
| Broker.Broker.CreateSession | internal/broker/handlers.go:71-97 | the terms of the new session, filed as a pending session, and the whole seconds announced |
| Broker.Broker.HandleStart | internal/broker/handlers.go:34-98 | which check decides the answer of a start, and what each outcome does to store, limiters and counters |
| Broker.SessionsAreLimited | internal/broker/handlers.go:34-98 | in any span of any run of starts, at most burst plus the limit's yield over the span sessions are filed in the store per address and per login hint, whatever was started before |
| AbuseDetector.MapKeyInjective | internal/broker/detect.go:75 | no two kinds or keys share a counter |
| AbuseDetector.Detector.Tripped | internal/broker/detect.go:72-83 | true exactly for the observation that brings its greedy window's count to the threshold |
| AbuseDetector.Detector.Observe | internal/broker/detect.go:59-70 | what is reported and what is counted, for every kind |
| AbuseDetector.TripsOncePerWindow | internal/broker/detect.go:72-83 | a window trips exactly once if its count reaches the threshold, and otherwise never |
| AbuseDetector.BurstOverlapsTrip | internal/broker/detect.go:72-83 | any 2T-1 observations within one window's length overlap a window that trips |
| AbuseDetector.TripsAreSpaced | internal/broker/detect.go:72-83 | fewer than L/Window + 2 trips happen in any span L |
| AbuseDetector.ReplaysNeverCount | internal/broker/detect.go:85-96 | whatever the thresholds, a run of observations has the counters and alerts it would have without its replays |
| AbuseDetector.DefaultAlertsExactly | internal/broker/detect.go:37-39 | by default, within five minutes of the first observation of a kind under a key, the third wrong code, the fifth start and the third mismatch raise the alert, and no other does |
| AbuseDetector.DefaultWindowEnds | internal/broker/detect.go:72-83 | and later than that the count starts again |
| AbuseDetector.ThresholdsAreSeparate | internal/broker/detect.go:85-96 | however the other kinds' thresholds are set, a kind raises the same alerts in every run |
| AbuseDetector.EventsRead | internal/broker/detect.go:11-27 | the reported events, by kind, with the key and, for an alert, the kind it is about |
| RateLimit.KeyedLimiter.Allow | internal/broker/ratelimit.go:29-43 | forgets the idle keys, then charges this key's bucket |
| RateLimit.KeyedLimiter.Sweep | internal/broker/ratelimit.go:45-51 | deletes exactly the buckets idle longer than the limit |
| RateLimit.ForgettingInvisible | internal/broker/ratelimit.go:29-51 | the forgetting limiter answers every call sequence as one that never forgets, if and only if a bucket refills completely in idleTTL + 1 ns |
| RateLimit.DefaultsRefill | internal/broker/broker.go:41-82 | the broker's defaults meet that condition |
| RateLimit.GateExactly | internal/broker/handlers.go:66-69 | a start passes exactly if its address and its hint both have a token; what it costs either, and that a refusal by address leaves every hint as it was |
| RateLimit.StartsAreLimited | internal/broker/handlers.go:66-69 | at most burst plus the limit's yield over the span attempts pass both limiters per address and per login hint in any span, whatever was attempted before |
| ClientIp.IsTrustedHost | internal/broker/clientip.go:34-45 | the host parses and lies in some trusted prefix |
| ClientIp.IsAllowedClient | internal/broker/clientip.go:48-62 | no gating, or the address parses and lies in some allowed prefix |
| Text.JoinSplit | internal/broker/clientip.go:23 | splitting the header loses nothing: the hops contain no comma and join back to it |
| ClientIp.ResolveClientIp | internal/broker/clientip.go:12-32 | the peer unless it is trusted and sent the header, else the rightmost untrusted hop, else the peer |
| ClientIp.RightmostIsRightmost | internal/broker/clientip.go:24-31 | that hop is untrusted and every hop to its right is trusted; there is none exactly if all are trusted |
| ClientIp.ResolvedExactly | internal/broker/clientip.go:12-32 | a trusted peer's request is attributed to the untrusted hop with only trusted ones to its right, and any other request, even one with none but trusted hops, to the peer |
| ClientIp.PrependNeverMatters | internal/broker/clientip.go:12-32 | prepending any text and a comma never changes the answer, if and only if the peer is untrusted or a non-empty header already has an untrusted hop |
| Client.StrangersKeepPace | internal/broker/session.go:240-247 | nothing done without the verifier moves the time polls are paced from |
| Client.SlowDownsAreFew | internal/broker/session.go:244-247 | a slow_down answers only the poll after an accepted one, twice at most, and only if the wire rounded the interval down to a non-zero number of seconds |
| Client.PromisedInBudget | pkg/client/client.go:139-171 | the polls of a login number at most (expiresAt - first poll) / (starting interval) + 3 |
| Client.EveryRunKeepsPromise | pkg/client/client.go:140-171 | with one verifier holder, any poll interval, any latencies and anything done by others, handler by handler, every run of the loop sees at most two slow_downs (none for whole seconds or under one second), keeps its spacing and its budget of polls, is never turned away, and returns an artifact exactly with an approval |
| Client.EveryRunIsDisciplined | pkg/client/client.go:147-170 | every run of the loop waits out its interval before each poll and polls on only while the login is in progress |
| Client.StopsExactly | pkg/client/client.go:147-158 | a cancelled turn ends the loop before it polls, and a lost answer before it is read |
| Client.RunsAreFinite | pkg/client/client.go:147-170 | no run of the loop goes on for more turns than a bound known from its first poll |
| Client.Poll | pkg/client/client.go:140-171 | the loop ends, at the first turn that is cancelled, lost, refused or answered with a final status, with that outcome; before that it polled once a turn, a latency after its timer, which ran the interval that the slow_downs so far had stretched |
| Pkce.PkceAgreement | internal/broker/pkce.go:10-17 | against the encoding of a digest exactly the non-empty preimages verify (section 4.6 of RFC 7636) |
| Pkce.NewPkcePair | pkg/client/client.go:200-209 | the client's pair is accepted, its verifier is well formed (section 4.1 of RFC 7636), and both parts decode to what they encode |
| Encoding.DecodeEncode | internal/broker/pkce.go:15 | base64url without padding (section 5 of RFC 4648) decodes to the bytes encoded, for every length |
| Encoding.SymbolTable | internal/broker/pkce.go:15 | the alphabet of section 5 of RFC 4648, symbol by symbol |
| Encoding.TestVectors | internal/broker/pkce.go:15 | the test vectors of section 10 of RFC 4648, unpadded |
| Text.TrimSpaceIsCore | internal/broker/session.go:28-30 | trimming takes off the outer white space, by code point, and nothing else |
| Text.LowerIsCaseBlind | internal/broker/session.go:28-30 | two texts are equal in lower case exactly if they agree character by character up to ASCII case |
| UserCode.NormalizeIdempotentExactly | internal/broker/usercode.go:27-32 | normalising again changes nothing if and only if, after trimming, no white space is the first thing behind the spaces and dashes at either end |
| UserCode.NormalizeConcatExactly | internal/broker/usercode.go:27-32 | normalisation distributes over a concatenation if and only if one side is white throughout, or no white space but spaces lies where they meet |
| UserCode.NormalizeIdempotent | internal/broker/usercode.go:27-32 | so it is idempotent on typed text: letters, digits, dashes, and no white space but spaces |
| UserCode.NormalizeConcat | internal/broker/usercode.go:27-32 | and distributes over every concatenation of typed text |
| UserCode.NormalizeNotIdempotent | internal/broker/usercode.go:27-32 | with a tab in the text both laws fail |
| UserCode.CodesEqualIgnores | internal/broker/usercode.go:35-42 | in typed text, a space or dash anywhere makes no difference, and replacing one character by another none exactly if both are such or they are one letter in either case |
| UserCode.SpaceIgnored | internal/broker/usercode.go:35-42 | in any text, a space anywhere makes no difference |
| UserCode.DashIgnoredExactly | internal/broker/usercode.go:35-42 | in any text, a dash makes a difference if and only if only white space lies on one side of it and the outer white space of the other side, which it keeps from being trimmed, is not all spaces |
| UserCode.ReplacedExactly | internal/broker/usercode.go:35-42 | in any text, another character for one, neither being white space, makes no difference if and only if both are dashes or they are one letter in either case, by code point |
| UserCode.AnyCaseAccepted | internal/broker/usercode.go:35-42 | so a code typed in any mixture of cases is accepted |
| UserCode.GenerateUserCode | internal/broker/usercode.go:14-24 | the code is the alphabet's letters at the bytes modulo 32, four and four around a dash; none without randomness |
| UserCode.GeneratedCodesEqual | internal/broker/usercode.go:11-24 | two generated codes match exactly when their bytes agree modulo 32 position by position |

## Left out

- HTTP routing, cookie attributes, headers, templates, logging and the abuse webhook: a request is the values it carries and a response its class.
- `internal/saml`, the token exchange, signature and claims verification: a callback carries an arbitrary verified token or none, and the broker's own checks on it are modelled.
- Client authentication and `amrSatisfies`: a start carries the authenticated client or none, and a token an identity or none.
- `cmd/`: flags, PAM and SSH plumbing over the client.
- The identity's claims map and the `*Identity` pointer are values, as nothing mutates them in place; so are the detector's and the limiter's map entries.
- Reading the clock twice in one handler (internal/broker/handlers.go:59, internal/broker/session.go:83, internal/broker/ratelimit.go:33) is modelled as reading it once.
- Session ids are assumed not to be reissued in the interleaved model; randomness quality, hash collisions and timing of comparisons are not modelled.
- `ToUpper` and `ToLower` change ASCII letters only; other alphabets are left as they are.
- Interval arithmetic is exact: the rounding of `Duration.Seconds()` for intervals of many days, and 64-bit overflow, are not modelled.
- The token bucket is ideal: real-valued tokens, the same instant for the limiter and its bucket, and every call advancing the bucket.
- Redis: the JSON round trip is the identity, a key is gone at its deadline, and the existence check and the write of an update are one step.
- The sweep ticker: sweeps happen at arbitrary times.
