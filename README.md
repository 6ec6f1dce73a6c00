# strava-bot: token lifecycle and duplicate-ride cleanup, in Dafny

strava-bot watches a Strava account. Some workouts get recorded twice: once as an indoor
trainer session logged as a zero-distance `Ride`, and once as a `VirtualRide` uploaded by a
training app. The bot hides the first copy from the home feed. This project models the two parts
that carry the logic, and the run that joins them.

* **The token lifecycle of `StravaClient`** (module `TokenLifecycle`, file `token_lifecycle.dfy`).
  The client holds an access token, a rotating refresh token and an expiry instant.
  * A request interceptor acts as a gate. If the token expires within five minutes, it first
    exchanges the refresh token for a new triple, using the refresh-token grant of section 6 of
    RFC 6749. It then attaches `Authorization: Bearer <token>`, as in section 2.1 of RFC 6750.
  * A response interceptor handles a 401 on a request that has not been retried. It marks the
    request retried, refreshes, and resends the request once.

  The behaviour is specified by pure functions over the token triple and a `Wire` value:
  * `Refresh` is the refresh exchange.
  * `Authorize` is the gate.
  * `Perform` is one `this.api(config)` call.
  * `OnRejected` is the rejection handler.

  A `Wire` holds the answers the API and the token endpoint will give, consumed in order, and the
  log of everything the client sent. The `StravaClient` and `RequestConfig` classes hold the
  fields that the source overwrites. Each method's `ensures` ties its new state to the function
  of its old state. The clock is a parameter `now`, in unix seconds.
* **The duplicate matcher** (module `DuplicateMatcher`, file `duplicate_matcher.dfy`). It covers
  `isIndoorBikeActivity`, `areActivitiesWithinOneHour` and the filter / `find` / accumulate logic
  of `hideDuplicateIndoorRides`. This code is the same in `src/index.ts` and `api/index.ts`. It
  is modelled as pure functions over the fetched list.
  * `Pairs` follows the accumulating loop.
  * `DuplicateMatcherProperties.Reference` says the same thing directly over the input list. It
    hides every public indoor activity that has some virtual ride within one hour, in input
    order, and pairs each with the first such ride. `CleanupIsReference` proves the two equal.
* **The cleanup run and its HTTP handlers** (module `CleanupRun`, file `cleanup.dfy`).
  * `HideDuplicateIndoorRides` is a method over a `StravaClient`. It lists activities with
    `getAllActivities()`'s defaults (page 1, five per page). It matches them, then sends
    `{hide_from_home: true}` for each duplicate in turn.
  * The method is proved to do what the function `RunCleanup` says.
  * `CleanupOutcome` says a successful run returns exactly the matcher's result, so a 401 that
    was recovered from leaves no trace in it. A failed run has hidden a prefix of that result.
  * `RunFrame` says a run sends nothing except the list call and hide updates of duplicates.
    `RunSendsEveryHide` says a successful run did send a hide update for every duplicate.
  * `ApiRoot` and `ServerRoot` are the two `GET /` handlers. The serverless one returns the run's
    result; the long-running server's one drops it.

The comment above `updateActivity` (src/lib/strava-client.ts:136) speaks of updating the
activity to private. The update the run sends is `{hide_from_home: true}` (src/index.ts:87-89),
and that is what the model sends.

## Model

| member | source | states |
|---|---|---|
| TokenLifecycle.Settle | src/lib/strava-client.ts:60-62 | a request resolves exactly when the API answered with a 2xx status; any other status, or no answer, rejects. The 2xx rule is axios's default status check, which runs before the response interceptor at these lines and is not in the source |
| TokenLifecycle.Expired | src/lib/strava-client.ts:87-91 | a token counts as expired once the clock has passed the instant five minutes before its expiry |
| TokenLifecycle.StravaClient.IsTokenExpired | src/lib/strava-client.ts:87-91 | the client's token counts as expired once the clock has passed the instant five minutes before the held expiry |
| TokenLifecycle.Refresh | src/lib/strava-client.ts:96-124 | the POST carries the client id, the secret, the current refresh token and `grant_type=refresh_token`; it succeeds exactly when the endpoint grants; on success the whole triple becomes the granted one; on failure the triple is unchanged and the error is rethrown |
| TokenLifecycle.Authorize | src/lib/strava-client.ts:52-58 | a token not about to expire is used as is, with no POST; an expiring one is refreshed first; once through, the header is `Bearer` plus the access token held; a failed refresh leaves the header and tokens as they were and rejects with the refresh error; for an expiring token the gate fails exactly as the refresh does |
| TokenLifecycle.Perform | src/lib/strava-client.ts:52-80 | one request only appends to the API log; a resolved request carries `Bearer` plus the access token held afterwards; a retried request stays retried; a request that sent nothing was rejected with a refresh error |
| TokenLifecycle.OnRejected | src/lib/strava-client.ts:60-80 | the handler only appends to the API log; a 401 marks the request retried; every rejection other than 401 passes through with the tokens and the wire unchanged; a resolution carries the held token's header |
| TokenLifecycle.RequestConfig.constructor | src/lib/strava-client.ts:63-71 | a new request has no `Authorization` header and `_retry` unset |
| TokenLifecycle.StravaClient.constructor | src/lib/strava-client.ts:41-50 | a new client holds an empty access token, the seed refresh token and expiry 0 |
| TokenLifecycle.StravaClient.RefreshAccessToken | src/lib/strava-client.ts:96-124 | the client's fields and the wire become what `Refresh` gives for the old fields |
| TokenLifecycle.StravaClient.AuthorizeRequest | src/lib/strava-client.ts:52-58 | the fields, the config's header and the wire become what `Authorize` gives; `_retry` is untouched |
| TokenLifecycle.StravaClient.Request | src/lib/strava-client.ts:52-80 | the outcome, the fields, the config and the wire become what `Perform` gives for the old state |
| TokenLifecycle.StravaClient.OnResponseError | src/lib/strava-client.ts:60-80 | the outcome, the fields, the config and the wire become what `OnRejected` gives for the old state |
| TokenLifecycleProperties.RefreshFrame | src/lib/strava-client.ts:115-123 | a refresh only appends to the wire, and the triple afterwards is the old one or one the token endpoint granted whole |
| TokenLifecycleProperties.AuthorizeFrame | src/lib/strava-client.ts:52-58 | the gate only appends to the wire, installs the old triple or a granted one, and sends nothing to the API |
| TokenLifecycleProperties.PerformFrame | src/lib/strava-client.ts:52-80 | whatever the answers, a request only appends to the wire and leaves the old triple or a granted one, never a mixture |
| TokenLifecycleProperties.PerformSends | src/lib/strava-client.ts:60-80 | a new request is sent at most twice; a resolved one was last sent with `Bearer` plus the access token the client now holds |
| TokenLifecycleProperties.PerformSendsOnlyItsCall | src/lib/strava-client.ts:69-72 | every send, first or resent, is of the request's own call |
| TokenLifecycleProperties.ResendStaysRetried | src/lib/strava-client.ts:65-66 | a request already marked retried stays marked |
| TokenLifecycleProperties.RetryOnlyAfterUnauthorized | src/lib/strava-client.ts:65-72 | a new request ends up marked retried if and only if the gate let it through and its first answer was 401 |
| TokenLifecycleProperties.SecondSendIsFinal | src/lib/strava-client.ts:65-72 | a request sent twice got a 401 first and settles with the second answer alone; a second 401 is its final rejection |
| TokenLifecycleProperties.ResendSettlesWithNextAnswer | src/lib/strava-client.ts:65-72 | a resent request that reaches the API stays marked retried and settles with the answer it gets |
| TokenLifecycleProperties.OtherRejectionsPassThrough | src/lib/strava-client.ts:78 | a rejection other than 401 passes through unchanged after one send, with no retry |
| TokenLifecycleProperties.GateFailureRejects | src/lib/strava-client.ts:52-56 | a refresh that fails in the gate rejects the request with the refresh error, and nothing reaches the API |
| TokenLifecycleProperties.ExpiredRefusalRejects | src/lib/strava-client.ts:52-56 | an expired token whose refresh is refused rejects the request with that refusal as a refresh error, with nothing sent to the API and the tokens unchanged |
| TokenLifecycleProperties.RetryRefreshFailureWins | src/lib/strava-client.ts:73-75 | after a 401, a failed refresh rejects with the refresh error rather than the 401, and nothing is resent |
| TokenLifecycleProperties.NewClientRefreshesFirst | src/lib/strava-client.ts:41-58 | a new client's first request POSTs the seed refresh token before anything else; if that fails nothing is sent, otherwise the first send carries the granted token |
| TokenLifecycleProperties.UnauthorizedThenRecovered | src/lib/strava-client.ts:60-80 | a 401, a successful refresh and a successful resend resolve the request with the new tokens, after exactly two sends and one POST |
| TokenLifecycleProperties.ExpiredStaysExpired | src/lib/strava-client.ts:87-91 | a token that counts as expired still does at any later clock reading, and so does any token expiring no later |
| TokenLifecycleProperties.ExpiryBufferBoundary | src/lib/strava-client.ts:87-91 | expiry 100 s away counts as expired; 300 s or 400 s away does not |
| DuplicateMatcher.Filter | src/index.ts:56-62 | the result holds exactly the elements satisfying the condition, and is no longer than the input |
| DuplicateMatcher.Find | src/index.ts:68-71 | nothing is found exactly when no element satisfies the condition; what is found is the first element that does |
| DuplicateMatcher.IsIndoorBikeActivity | src/index.ts:31-36 | an indoor bike activity is never of type `VirtualRide`, so no activity is paired with itself |
| DuplicateMatcher.WithinOneHour | src/index.ts:38-50 | the first activity starts no more than one hour before or after the second |
| DuplicateMatcher.PublicIndoorBikeActivities | src/index.ts:56-58 | exactly the fetched activities of type `Ride` with zero distance that are not private |
| DuplicateMatcher.VirtualRideActivities | src/index.ts:60-62 | exactly the fetched activities of type `VirtualRide` |
| DuplicateMatcher.Cleanup | src/index.ts:52-95 | at most one match per public indoor activity; `hidden` and `matches` are aligned, the i-th hidden id being the i-th match's indoor activity |
| DuplicateMatcher.Pairs | src/index.ts:64-93 | `hidden` and `matches` have one entry per pairing, aligned: the i-th hidden id is the i-th match's indoor activity |
| DuplicateMatcherProperties.FindAfterFilter | src/index.ts:60-71 | searching the filtered list is searching the whole list for both conditions at once |
| DuplicateMatcherProperties.CorrespondingIsFirstNearby | src/index.ts:60-71 | the virtual ride found is the first activity of the whole list that is a virtual ride within one hour |
| DuplicateMatcherProperties.PairsIsFilterMap | src/index.ts:64-93 | the accumulating loop keeps the candidates that have a corresponding virtual ride, in order, and reports each with it |
| DuplicateMatcherProperties.CleanupIsReference | src/index.ts:52-95 | the result hides, in input order, exactly the public indoor activities with a virtual ride within one hour, each paired with the first such ride |
| DuplicateMatcherProperties.HiddenAreCandidates | src/index.ts:56-91 | every hidden id belongs to a fetched public indoor activity |
| DuplicateMatcherProperties.HiddenExactlyDuplicates | src/index.ts:31-93 | with distinct ids, an activity is hidden if and only if it is a public indoor activity with some virtual ride within one hour |
| DuplicateMatcherProperties.ReportedRideIsFirstWithinHour | src/index.ts:67-85 | each match pairs a public indoor activity with a virtual ride within one hour, and every earlier virtual ride is more than an hour away |
| DuplicateMatcherProperties.PairsHidesEveryMatched | src/index.ts:67-91 | every candidate with a corresponding virtual ride has its id hidden |
| DuplicateMatcherProperties.PairsPrefix | src/index.ts:67-93 | the lists after the first n candidates are prefixes of the final lists |
| DuplicateMatcherProperties.WithinOneHourWindow | src/index.ts:38-50 | the window is symmetric and closed: starts match exactly when they are at most 3 600 000 ms apart either way |
| DuplicateMatcherProperties.PublicPairIsHidden | src/index.ts:52-95 | a public zero-distance ride and a virtual ride ten minutes later: the ride is hidden and the pair reported |
| DuplicateMatcherProperties.PrivatePairIsLeftAlone | src/index.ts:56-58 | the same pair with the ride private: nothing hidden, nothing reported |
| DuplicateMatcherProperties.LoneIndoorRideIsLeftAlone | src/index.ts:60-93 | a public zero-distance ride with no virtual ride: nothing hidden, nothing reported |
| DuplicateMatcherProperties.VirtualRideMayBeShared | src/index.ts:67-93 | two indoor rides near one virtual ride are both hidden, each reported with that same virtual ride |
| CleanupRun.HideDuplicateIndoorRides | src/index.ts:52-95 | the result, the hidden ids, the client's tokens and the wire are what `RunCleanup` gives for the old tokens |
| CleanupRun.HideFrom | src/index.ts:67-93 | the loop only appends to the hidden ids, at most one per candidate, and to the API log; a success reports exactly the ids hidden |
| CleanupRun.RunCleanup | src/index.ts:52-95 | a success reports exactly the ids hidden; at most one id per public indoor activity is hidden; a run only appends to the API log, and one that sent nothing failed with nothing hidden |
| CleanupRun.HideFromOutcome | src/index.ts:67-93 | the update loop either succeeds with the matcher's result or fails having hidden a strict prefix of it |
| CleanupRun.CleanupOutcome | src/index.ts:52-95 | a successful run returns exactly the matcher's result for the fetched list; a rejected list call fails the run with nothing hidden; a later failure leaves a strict prefix hidden |
| CleanupRun.RunFrame | src/index.ts:53-89 | a run sends only the list call and `hide_from_home` updates of duplicates, only appends to the wire, and leaves the old triple or a granted one |
| CleanupRun.HideFromSendsHidden | src/index.ts:87-91 | every id the loop adds to `hidden` had its hide update sent by the loop |
| CleanupRun.RunSendsEveryHide | src/index.ts:67-91 | every id a run reports hidden had its `hide_from_home` update sent during the run; a successful run sent one for every duplicate the matcher picks |
| CleanupRun.ApiRoot | api/index.ts:98-111 | status 200 and `success: true` exactly when the run succeeded; a failure answers status 500 with the error's message |
| CleanupRun.ServerRoot | src/index.ts:98-110 | status 200 and `success: true` exactly when the run succeeded; a failure answers status 500 with the error's message |
| CleanupRun.ApiRootShowsCleanup | api/index.ts:98-104 | a 200 from the serverless handler carries exactly the matcher's `hidden` and `matches` |
| CleanupRun.ApiRootKeepsResult | api/index.ts:100-104 | different results give different serverless responses |
| CleanupRun.HandlersAgreeExceptOnSuccessBody | src/index.ts:98-110 | both handlers agree on status and on failures; the server answers every success alike |

## Left out

- HTTP transport, Express, the cron schedule and logging are not modelled. What the API and the token endpoint answer is the input `Wire`. Each log statement is dropped.
- The ten-second request timeout is not modelled. An answer that never comes is the `NoAnswer` case, which rejects.
- An API script that has run out stands for no answer. A token script that has run out stands for a refused POST.
- The clock is read once per run, as the parameter `now`, and every request of the run sees that reading. The source reads `Date.now()` at each gate.
- A token endpoint answering 401 is out of scope. In the source that rejection reaches the response interceptor of the request being gated, with a config that is not the request's own. The model treats every failed refresh as a `RefreshError` that passes through.
- The body of the list call's answer is the parameter `fetched`. The bodies of update answers are ignored, as the run ignores them.
- Pagination beyond the first page of five is not modelled, and neither are concurrent runs. Two runs that share one client and refresh at once are not modelled.
- `start_date` is an integer number of milliseconds. ISO 8601 parsing is not modelled.
- Distance is a `real`, with no floating-point rounding. The source reads `distance`, which its summary type does not declare; if it is absent the activity is never a candidate. The model assumes it is present.
- `String(error)` for a thrown value that is not an `Error` is not modelled. Every rejection in the model carries a message.
- `env.ts` is not part of this model: the credentials and the seed refresh token are constructor inputs.
- RunSendsEveryHide: states that each hide update was sent, not the order of the updates on the wire nor the answer each one got.
- No claim is made that a second run hides nothing. The filter tests `private`, and the update sets `hide_from_home`.
