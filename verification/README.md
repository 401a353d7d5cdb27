# Verified models of the RWS client

This project models the stateful parts of the Robot Web Services client and proves
what they promise, over every run and every input. Each component is given as the
steps or functions the code performs; classes and methods carry the code's own fields
and loops and are proved to be those steps, and the theorems are about the steps.

| Files | Component |
|---|---|
| `Requests`, `RequestForms` | which requests cut a create, and which may be sent again, by what is written on the wire |
| `RequestQueue`, `QueueRuns`, `QueueTurns`, `SessionQueue` | the serial request queue of `HttpSession`: pacing, reducing requests that cut subscription creates, close and reopen, `/logout` |
| `HttpAuth`, `CallEffects`, `AuthRuns`, `AuthInvariants`, `NonceUse`, `AuthCuts`, `SessionAuth` | one request inside its turn: digest handshake, tentative cookies, fresh-session retry, 503 retry, dead-socket resend, nonce counter |
| `WsLifecycle`, `WsRecovery`, `Heartbeat` | one WebSocket subscription: open, drop, backoff, re-register, lost, stopped; its heartbeat |
| `SubscriptionBody`, `BodyText`, `Respelling`, `Registration` | the body of `POST /subscription`, its rewriting, and registration |
| `Groups`, `GroupInvariants`, `GroupSteps`, `GroupRuns`, `GroupLeaks`, `GroupClosing`, `GroupWitnesses`, `GroupProgress`, `GroupQueue` | the groups the controller holds for any number of subscriptions of a session, and the table of entries |
| `DnsNames`, `DnsRecords`, `DnsPackets`, `DnsEncoding`, `DnsControllers`, `DnsDiscovery` | mDNS discovery: compressed names, TXT data, reply packets and their truncations, the controllers reported |
| `JsonRepair`, `Entities`, `Paging` | trailing-comma repair, entity decoding, linked page walks |
| `MultiRobot`, `FleetEffects` | concurrent connects competing for the active slot |

## How the models read

* A step is one event handler, timer callback or promise continuation, and runs to its
  end. The order of steps, every answer of a controller, every socket event and every
  clock advance is arbitrary, within the guards written in the `Enabled` predicates.
* Timers never fire early and the clock does not run backwards; the heartbeat's interval
  timer fires on time. A socket closed while it connects does not open later, and a
  socket that failed delivers its close before the next one opens.
* In `Groups` the controller's answer to a request and the client's acting on it are two
  steps, with anything in between; continuations that only pass an answer on are part of
  the one that acts on it. The unsubscribe function may be called at any time after the
  open, any number of times, after a loss too, and `closeAll` at any time.
* In `Groups` every 201 that arrives carries a usable Location, every DELETE takes effect,
  and no two groups on the controller have one id at a time; an id is free again once its
  group is gone. A create that is cut or times out may still be completed by the
  controller later. `Registration` drops the assumptions on Locations and DELETEs where
  it says so.
* In the authentication model the controller is a function from the number of requests
  sent so far to an outcome, so every sequence of statuses, cookies, challenges and
  connection failures is covered.
* Text is a sequence of characters. UTF-8, `toLowerCase`, `parseInt`, the list parsers and
  the reading of a page's `next` link are parameters of the models; where a property
  needs something of them it is a precondition (`IsUtf8`, `EmptyBodyIsEmpty`).

## What the proofs found

Each of these is a property that fails, with a run or an input that shows it and the exact
condition under which it holds.

* A digest challenge whose `qop` does not offer `auth` is kept, and while it is, every call
  fails without sending anything, so no new challenge can arrive
  (`AuthRuns.UnanswerableChallengeSilences`). One such 401 is enough
  (`AuthRuns.UnusableChallengeIsKept`), and a session that never had a good answer does
  not expire, so it stays silent (`AuthRuns.SilentForGood`).
* Adopting a challenge restarts `nc` at 1. A nonce goes out twice with one count exactly
  when two of the challenges that were answered carry the same nonce
  (`NonceUse.PairsDifferExactly`); one call can do that (`NonceUse.OneNonceSentTwice`).
* Closing a subscription (its unsubscribe function, or `closeAll`) can leave its group and
  an entry behind, exactly when it lands while the re-registration awaits a DELETE or has
  an answer it has not acted on from which it creates or keeps a group: there is no create
  yet, or none any more, for the DELETE of the close to cut
  (`GroupClosing.ClosingLeaksExactly`; runs in
  `GroupWitnesses.StopDuringReRegisterLeaks` and `StopBehindTheAnswerLeaks`). A stop that
  lands while the create is awaited cuts it, and leaves nothing. What is left behind stays
  exactly until a DELETE of its id is queued or the controller restarts
  (`GroupLeaks.StrayStaysExactly`); a second stop or `closeAll` does the first
  (`GroupWitnesses.SecondStopSweeps`). `GroupLeaks.LeakedExactly` says which groups a whole
  run leaves.
* A live subscription can lose its entry in the table, and with it its place in
  `closeAll`: exactly when a step of another one deletes or overwrites an entry under an
  id the controller has issued again (`GroupRuns.ListedExactly`). Stopping a subscription
  that was given up does that, and deletes the other one's group
  (`GroupWitnesses.LateStopHitsAnother`); so does a subscribe after a restart of the
  controller (`GroupWitnesses.RestartReissuesAnId`).
* When a panel resource is refused in both its spellings, the two swaps exchange them if the
  one sent later was refused first, and undo each other otherwise
  (`Respelling.RetriedExactly`, `Respelling.BothSpellings`).
* A connect of a robot that was removed meanwhile resolves with its manager down, and can
  make the removed robot active or bring its configuration back without a manager
  (`MultiRobot.RemovalInFlightBreaks`, `MultiRobot.ConsistentExactly`).
* A robot whose id is the empty string loses the active slot although it is connected
  (`MultiRobot.EmptyIdLosesTheSlot`, `MultiRobot.ActiveFollowsConnects`).
* An SRV record whose target is the root name (no service, RFC 2782) has seven bytes of data
  and is refused, and with it every record behind it (`DnsEncoding.EncodingInverted`; a
  reply in `DnsEncoding.NoServiceLosesTheNext`).
* The trailing-comma repair is not idempotent (`JsonRepair.NotIdempotent`): a second repair
  changes something exactly when a comma outside a literal stands, but for white space,
  right before one that the first repair drops (`JsonRepair.IdempotentExactly`).

## Model

| member | source | states |
|---|---|---|
| `RequestForms.CutsExactly` | src/HttpSession.ts:380-394 | a request cuts creates already sent exactly if it is written as a stop, motors off, group delete or /logout; only unsent ones exactly if as a release or RMMP cancel; nothing exactly if as none of these |
| `RequestForms.MotorsOffField` | src/HttpSession.ts:383 | motors off is found wherever its field stands in the form |
| `RequestForms.MayResendExactly` | src/HttpSession.ts:1028-1032 | a request may be sent again exactly if it is a GET without a hold that is neither /logout nor a DIPC read, in any letter case |
| `Requests.ReducingRequests` | src/HttpSession.ts:378-394 | a create is never itself a reducing request and is never repeated on a dead connection; no reducing request is repeated either; /logout cuts sent creates |
| `Requests.GroupDeletesCut` | src/HttpSession.ts:381 | deleting a group, whichever it is, cuts creates already sent |
| `RequestQueue.InvStep` | src/HttpSession.ts:542-594 | every step of every participant keeps the ten invariants of the queue |
| `RequestQueue.EveryRun` | src/HttpSession.ts:542-594 | the invariants hold after every interleaving |
| `QueueRuns.KindsAreWritten` | src/HttpSession.ts:360-394 | what the queue keeps of a job is what is written in its request: a create, what it cuts, whether it may be sent again |
| `QueueRuns.ReducerLeavesNoCreate` | src/HttpSession.ts:557-567 | once a written stop, motors off, group delete or /logout is queued no POST /subscription before it is live, and once a release or RMMP cancel is, none before it is unsent |
| `QueueRuns.CutCreatesStaySilent` | src/HttpSession.ts:574-575 | in the queue a cut create starts and sends nothing afterwards, whatever pause it was in; only creates are cut, each by a later reducing request |
| `QueueRuns.CuttableIsExact` | src/HttpSession.ts:568-584 | `cuttable` is exactly the accepted, unsettled, uncut creates, each with whether it was sent |
| `QueueRuns.RequestsAreQueued` | src/HttpSession.ts:548-567 | a request on an open session waits last in the queue and cuts exactly the creates it is written to cut; on a closed one it changes nothing; after a reopen it is accepted |
| `QueueRuns.DisconnectLogsOut` | src/RwsClient.ts:260-262 | the disconnect of an open session queues one GET /logout and closes it, a second one does nothing |
| `QueueRuns.StartsArePaced` | src/HttpSession.ts:570-578 | any two queue starts or dead-socket resends are at least the request interval apart, in job order |
| `QueueTurns.TurnsExactly` | src/HttpSession.ts:568-579 | a turn starts at once, or pauses until exactly the interval since the last start is over or the job is cut; a cut job ends without sending |
| `QueueTurns.CallsExactly` | src/HttpSession.ts:989-1005 | a running call can send while not cut, can return, and can wait for a resend exactly if it is a repeatable read |
| `QueueTurns.ResendsExactly` | src/HttpSession.ts:991-1004 | a resend waits for the rest of the interval and not longer, and stamps the clock; one that is too late does not |
| `QueueRuns.RunsInOrderSettlesOnce` | src/HttpSession.ts:586-593 | one job at a time in the order accepted; the promises settle 0, 1, 2, ... once each, whatever earlier jobs did |
| `QueueRuns.NothingFollowsLogout` | src/RwsClient.ts:247-264 | between two reopens at most one /logout, and nothing starts after it |
| `QueueRuns.AgentDestroyedAtRest` | src/HttpSession.ts:506-513 | the agent is destroyed exactly by the last close while still closed, and then every accepted request has settled |
| `QueueRuns.CallbackFollowsTheQueue` | src/HttpSession.ts:506-513 | a close's callback can run exactly once, when everything accepted before the close has settled |
| `QueueRuns.EveryAcceptedRequestRuns` | src/HttpSession.ts:548-555 | from every reachable state every accepted request can be driven to settle, and each uncut one has then run, close or not |
| `QueueRuns.StopWaitsForNoCreate` | src/HttpSession.ts:528-533 | behind creates only, a stop's turn comes with no time passing and nothing sent |
| `QueueRuns.NothingSentBeforeStop` | src/HttpSession.ts:528-533 | the same for every run: behind creates only, nothing of an earlier request is started, resent or sent any more |
| `QueueRuns.EveryBusyRunSettles` | src/HttpSession.ts:548-555 | in every run, after at most four job steps for each request accepted so far, all of them have settled and each uncut one has run, whatever else is queued, closed or reopened |
| `SessionQueue.HttpSession.constructor` | src/HttpSession.ts:404-440 | a new session is the initial queue |
| `SessionQueue.HttpSession.CutCreates` | src/HttpSession.ts:557-567 | the loop over `cuttable` aborts exactly the creates the request's class cuts and takes them off the map |
| `SessionQueue.HttpSession.Enqueue` | src/HttpSession.ts:542-594 | appending a request is the queue's enqueue step |
| `SessionQueue.HttpSession.Request` | src/HttpSession.ts:550-555 | a call on a closed session is refused and changes nothing; on an open one it is the call step |
| `SessionQueue.HttpSession.Start` | src/HttpSession.ts:574-578 | what follows the pause is the resume step: a cut create throws, any other is marked sent and stamps the clock |
| `SessionQueue.HttpSession.Turn` | src/HttpSession.ts:569-579 | a job's turn is the begin step: pause or start |
| `SessionQueue.HttpSession.AfterPause` | src/HttpSession.ts:571-575 | the end of the pause, by time or by a cut, is the wake step |
| `SessionQueue.HttpSession.Settled` | src/HttpSession.ts:581-591 | settling a job is the settle step and releases its create |
| `SessionQueue.HttpSession.Close` | src/HttpSession.ts:506-513 | closing is the close step |
| `SessionQueue.HttpSession.QueueDrained` | src/HttpSession.ts:510-512 | the callback of a close destroys the agent as the step says |
| `SessionQueue.HttpSession.Reopen` | src/HttpSession.ts:516 | reopening is the reopen step |
| `SessionQueue.HttpSession.Disconnect` | src/RwsClient.ts:260-262 | queueing /logout and closing in one tick is the disconnect step; on a closed session it does nothing |
| `HttpAuth.ExecuteTraced` | src/HttpSession.ts:598-715 | every call makes at most four fetches, and every sending after its first follows a 401 or 503 answer or, for a GET without a hold that changes nothing, a dead pooled connection |
| `HttpAuth.ActsAtMostOnce` | src/HttpSession.ts:982-1032 | of a write, a held request, a DIPC read or /logout only the last sending of a call is not answered 401 or 503: the controller acts at most once |
| `CallEffects.DroppedIsResentExactly` | src/HttpSession.ts:989-1005 | a first sending on a dead pooled connection is sent again, with the same cookies, exactly if it is a repeatable read through node:http with time left and not cut; else the call fails |
| `CallEffects.FirstSending` | src/HttpSession.ts:614-627 | a call that is not cut first and can answer its challenge sends, with exactly the cookies held and the challenge's next count, unless five idle minutes dropped it; any other sends nothing |
| `CallEffects.AnsweredAtOnce` | src/HttpSession.ts:711-757 | a 2xx answer is returned and any other status but 401 and 503 fails the call, after one sending; its cookies are kept over those held |
| `CallEffects.BusyIsRetried` | src/HttpSession.ts:699-712 | a 503 is followed by one more sending with the cookies it set, unless cut; a second 503 fails the call as busy |
| `CallEffects.ChallengeIsAnswered` | src/HttpSession.ts:628-649 | a 401 with an answerable challenge is answered under its nonce and count 1 with the cookies it set, and what comes then ends the call; any other 401 fails it |
| `CallEffects.LostSessionLogsInAgain` | src/HttpSession.ts:650-673 | after a second 401 with a cookie held the session counts as replaced, and a new one without any cookie answers that challenge |
| `CallEffects.SecondRejectionFails` | src/HttpSession.ts:650-673 | without a cookie held a second 401 fails the call |
| `AuthCuts.SendsOnlyUncut` | src/HttpSession.ts:816 | no sending of a call, its first or one after a 401 or 503, goes out once the call is cut |
| `AuthCuts.CutEndsTheCall` | src/HttpSession.ts:816 | a cut after k sendings adds none to them, whichever retry was next; a cut before the first fails the call as cut short |
| `AuthRuns.RejectedCall` | src/HttpSession.ts:623-672 | one call rejected throughout: two requests, three and one reported replacement with a held cookie; no cookie is left |
| `AuthRuns.RejectedCalls` | src/HttpSession.ts:858-864 | n rejected calls send exactly 2n requests and report no replaced session (one more of each if a cookie was held), whatever cookies the 401s set |
| `AuthRuns.UnanswerableChallengeSilences` | src/HttpSession.ts:1218-1233 | a call sends nothing exactly when it is cut first or holds an unexpired challenge it cannot answer, which it then still holds |
| `AuthRuns.UnusableChallengeIsKept` | src/HttpSession.ts:628-640 | from a new session one 401 without qop auth leads there: its call fails after one request, the next one sends nothing |
| `AuthRuns.SilentForGood` | src/HttpSession.ts:1348-1353 | a session that never had a good answer does not expire, so with such a challenge no later call sends anything |
| `AuthInvariants.EveryRun` | src/HttpSession.ts:598-715 | the nonce and cookie-origin invariants hold after any sequence of calls |
| `NonceUse.NonceCountsRunOn` | src/HttpSession.ts:1218-1257 | under each adopted challenge the nc values sent are 1, 2, 3, ... with no gap or repeat, all with the nonce of the 401 answered by the first of them, and the counter equals their number |
| `NonceUse.PairsDifferExactly` | src/HttpSession.ts:635-659 | in every run no nonce is sent twice with one count if and only if no two of the challenges answered carry the same nonce |
| `NonceUse.OneNonceSentTwice` | src/HttpSession.ts:635-659 | a held cookie and three 401s with one nonce: the second and third sendings of one call carry it with count 1 |
| `AuthInvariants.RejectedCookieNeverLeaks` | src/HttpSession.ts:1287-1332 | a cookie set only by 401 answers of calls that got no other answer is never sent by another call |
| `SessionAuth.HttpSession.constructor` | src/HttpSession.ts:404-440 | a new session holds the given cookie, no challenge and a zero counter |
| `SessionAuth.HttpSession.StoreChallengeCookies` | src/HttpSession.ts:1313-1316 | a 401's cookies go to the tentative jar only |
| `SessionAuth.HttpSession.StoreSessionCookies` | src/HttpSession.ts:1318-1331 | any other answer takes the tentative cookies and its own, and reports a replaced session once, when the session cookie changed value on the way |
| `SessionAuth.HttpSession.StoreCookies` | src/HttpSession.ts:1287-1332 | the method is the model's cookie step |
| `SessionAuth.HttpSession.SendOnce` | src/HttpSession.ts:846-871 | a sending carries both jars and the next nonce count |
| `SessionAuth.HttpSession.RawFetch` | src/HttpSession.ts:809-837 | the method is the model's fetch: cut check, send, resend, cookies before anything throws |
| `SessionAuth.HttpSession.AdoptChallenge` | src/HttpSession.ts:635-636 | taking a challenge restarts the counter |
| `SessionAuth.HttpSession.Handshake` | src/HttpSession.ts:628-673 | the 401 branch is the model's handshake |
| `SessionAuth.HttpSession.AnswerAgain` | src/HttpSession.ts:650-672 | the dead-cookie retry: only for a cookie held before the call |
| `SessionAuth.HttpSession.Open` | src/HttpSession.ts:614-624 | an expired session drops its challenge and keeps its cookies |
| `SessionAuth.HttpSession.Finish` | src/HttpSession.ts:699-756 | the 503 retry and the outcome reported |
| `SessionAuth.HttpSession.Execute` | src/HttpSession.ts:598-757 | the whole call is the model's `Execute` |
| `NonceCountHex.NcFieldIsExact` | src/HttpSession.ts:1236 | the padded hex field names the count, and has eight digits exactly below 2^32 |
| `NonceCountHex.NcFieldInjective` | src/HttpSession.ts:1236 | no two counts share a field |
| `WsLifecycle.EveryRun` | src/WsSubscriber.ts:618-692 | the lifecycle invariants hold after every run |
| `WsLifecycle.OneThingAtATime` | src/WsSubscriber.ts:736-762 | at most one of timer, attempt and open socket, and exactly one until stopped or lost |
| `WsLifecycle.DropsAreAccountedFor` | src/WsSubscriber.ts:641-691 | opens = 1 + restored; drops = restored + lost + the one being recovered |
| `WsLifecycle.LostAfterWholeBudget` | src/WsSubscriber.ts:736-778 | lost at most once, only after exactly the allowed failed attempts since the last open and the whole backoff: by the clock the sum of the delays (61 000 ms by default) lies at least between the last drop and the loss |
| `WsRecovery.EachFailureAskedToRegister` | src/WsSubscriber.ts:752-760 | in every run each failed attempt since the last open asked the controller to register again; a stream is lost only after as many re-registrations as attempts are allowed |
| `WsRecovery.WhatFails` | src/WsSubscriber.ts:752-760 | an attempt fails exactly with a re-registration that fails or a socket that fails behind one that succeeded |
| `WsRecovery.RegisteringAgainRestores` | src/WsSubscriber.ts:746-760 | from any reached wait, a refused stored URL, a re-registration and its socket restore the stream, once |
| `WsRecovery.StoredUrlRestores` | src/WsSubscriber.ts:746-752 | from any reached wait the stored URL restores it too |
| `WsRecovery.DropSetsTimer` | src/WsSubscriber.ts:736-745 | a drop with attempts left waits for the first delay |
| `WsRecovery.DelaysDouble` | src/WsSubscriber.ts:75-81 | each delay is the one before it doubled, up to the cap |
| `WsRecovery.FirstOpenFails` | src/WsSubscriber.ts:371-380 | a first open that fails closes the subscription for good |
| `WsRecovery.SocketsEnd` | src/WsSubscriber.ts:665-691 | every socket that has not ended can still end, by a failure before its open or a close behind it |
| `WsLifecycle.DefaultBackoff` | src/WsSubscriber.ts:75-81 | the six default delays add up to 61 000 ms |
| `WsLifecycle.SilentAfterStop` | src/WsSubscriber.ts:383-398 | after a stop or a loss no socket is built or opens and no callback fires |
| `WsLifecycle.StopIsFinal` | src/WsSubscriber.ts:383-398 | the same from every reachable state |
| `Subscription.ActiveSubscription.constructor` | src/WsSubscriber.ts:351-367 | a new subscription is the initial state |
| `Subscription.ActiveSubscription.BuildSocket` | src/WsSubscriber.ts:618-632 | building the socket is the build step; a closed subscription builds none |
| `Subscription.ActiveSubscription.OnOpen` | src/WsSubscriber.ts:641-651 | the open handler is the open step |
| `Subscription.ActiveSubscription.OnFailure` | src/WsSubscriber.ts:665-668 | the error handler before an open is the failure step |
| `Subscription.ActiveSubscription.OnClose` | src/WsSubscriber.ts:670-691 | the close handler is the close step |
| `Subscription.ActiveSubscription.Reconnect` | src/WsSubscriber.ts:736-745 | scheduling is backoff, or giving up once the budget is spent |
| `Subscription.ActiveSubscription.OnTimer` | src/WsSubscriber.ts:746-752 | the reconnect timer is the timer step |
| `Subscription.ActiveSubscription.OnRejected` | src/WsSubscriber.ts:752-760 | a rejected open re-registers, reschedules or fails the subscribe, as its attempt says |
| `Subscription.ActiveSubscription.OnRegistered` | src/WsSubscriber.ts:754-758 | the end of a re-registration is its step |
| `Subscription.ActiveSubscription.Unsubscribe` | src/WsSubscriber.ts:383-398 | the unsubscribe function is the stop step |
| `Heartbeat.HalfOpenIsTerminated` | src/WsSubscriber.ts:701-722 | a socket whose peer answers nothing from some moment on is terminated within two intervals |
| `Heartbeat.AnsweredIsKept` | src/WsSubscriber.ts:706-720 | a socket that answers each ping before the next tick is never terminated |
| `Heartbeat.PingedEveryInterval` | src/WsSubscriber.ts:707-722 | a live socket is pinged once at each whole interval |
| `Heartbeat.AnsweredTimerRuns` | src/WsSubscriber.ts:707-722 | the timer of a current socket that answers runs on |
| `Heartbeat.TickComes` | src/WsSubscriber.ts:708-721 | from any reached moment the next tick pings an answered socket, terminates an unanswered one and ends the timer of one that was left |
| `Heartbeat.EventsCome` | src/WsSubscriber.ts:705-735 | a pong, a close and a stop can come at any moment; a stopped timer does nothing more |
| `Heartbeat.LeftSocketIsLeftAlone` | src/WsSubscriber.ts:709-712 | no tick pings or terminates a closed or replaced socket |
| `SubscriptionBody.SwapResources` | src/WsSubscriber.ts:261-268 | the loop over the swaps is their composition in order |
| `BodyText.DecIsDecimal` | src/WsSubscriber.ts:219-225 | a resource's number is its decimal numeral, without leading zeros |
| `BodyText.FieldsAreNumbered` | src/WsSubscriber.ts:219-225 | the resource at index k has the three fields of number k + 1 |
| `BodyText.DistinctAreFirsts` | src/WsSubscriber.ts:220 | the paths sent are exactly the first occurrences, in order |
| `BodyText.SpellingsExactly` | src/WsSubscriber.ts:233-258 | exactly four panel resources have two spellings, bare and suffixed, each the other's other one |
| `SubscriptionBody.SwapOneJoin` | src/WsSubscriber.ts:264-266 | one replacement in the text is the replacement of the first field whose whole value matches |
| `SubscriptionBody.SwapBody` | src/WsSubscriber.ts:219-225 | swapping the serialised body is building the body of the swapped list |
| `SubscriptionBody.ReplaceAllIsRetarget` | src/WsSubscriber.ts:261-268 | unchained swaps applied one after the other are the swaps applied all at once |
| `SubscriptionBody.OtherSpellingInvolution` | src/WsSubscriber.ts:253-258 | the two spellings are each other's other spelling and name one resource |
| `SubscriptionBody.RetriedBody` | src/WsSubscriber.ts:591 | for any refused list without both spellings of a resource, repeated and unknown ones included, the retried body names the same resources, exactly the refused panel ones in their other spelling |
| `SubscriptionBody.BothSpellingsUndo` | src/WsSubscriber.ts:261-268 | two opposite swaps undo each other in one order and exchange the paths in the other |
| `Respelling.RetriedExactly` | src/WsSubscriber.ts:579-591 | for any refused resources drawn from the sent ones, the retried body names the same resources, and has exactly the refused panel ones respelled if and only if, of each resource refused in both spellings, the one sent later was refused first |
| `Respelling.BothSpellings` | src/WsSubscriber.ts:579-591 | both cases occur |
| `Respelling.BodyInjective` | src/WsSubscriber.ts:219-225 | bodies of as many resources are equal only for equal lists |
| `GroupSteps.InvStep` | src/WsSubscriber.ts:337-401 | every step keeps the accounting: each flow that awaits an answer has exactly one request queued, an entry's key is its subscription's current id, every group is held by one flow or abandoned, a subscription given up has its DELETE queued |
| `GroupSteps.EveryRun` | src/WsSubscriber.ts:337-401 | this holds after every run of any number of subscriptions, late and repeated stops and `closeAll` included |
| `GroupRuns.EntriesNameTheirFlows` | src/WsSubscriber.ts:486-501 | an entry stands under the id its subscription has now, and is never of one given up or rejected |
| `GroupRuns.ListedExactly` | src/WsSubscriber.ts:383-398 | every live subscription has its entry throughout a run if and only if no step takes away or overwrites an entry under an id that another live subscription has |
| `GroupRuns.GroupsAreHeldOnce` | src/WsSubscriber.ts:573-608 | with nothing under way, every group no unanswered create made is held by exactly one subscription under the id of its delete URL, live or closed while it was re-registered; a rejected subscribe holds none |
| `GroupRuns.AnsweredCreatesAbandonNothing` | src/WsSubscriber.ts:532-546 | while every create is answered there is no abandoned group |
| `GroupRuns.KeptGroupIsComplete` | src/WsSubscriber.ts:596-607 | at most two creates per registration; no panel resource is refused in the kept group's answer, and `unbound` is its refused list, or empty while none is held |
| `GroupRuns.CloseAllDeletesEach` | src/WsSubscriber.ts:423-440 | closeAll queues one DELETE for each entry and leaves none |
| `GroupProgress.ContinuingAdvances` | src/WsSubscriber.ts:573-608 | an answer is acted on once, in the order of the registration, and each time comes closer to its end |
| `GroupProgress.RequestsCanBeAnswered` | src/WsSubscriber.ts:555-571 | which answers the oldest request can have: a cut create none but silence |
| `GroupClosing.ClosingLeaksExactly` | src/WsSubscriber.ts:383-440 | from any reachable state, some run after a stop or a `closeAll` leaves the subscription's group behind if and only if the close lands in the window: awaiting a DELETE before a create, or holding an answer from which it creates or keeps a group no queued DELETE removes |
| `GroupClosing.OnlyLiveSubscriptionsHoldGroups` | src/WsSubscriber.ts:383-440 | with no close in its window, every group no unanswered create made is held by a live subscription once nothing is under way |
| `GroupLeaks.LeakedExactly` | src/WsSubscriber.ts:486-501 | with nothing under way, the groups no live subscription holds and no unanswered create made are exactly those the run left behind: kept by a closed subscription's re-registration, no DELETE of them queued at that time or since, no restart since |
| `GroupLeaks.StrayStaysExactly` | src/WsSubscriber.ts:383-440 | a group left behind stays, with no DELETE of it under way, if and only if no step of the run queues one and the controller does not restart |
| `GroupWitnesses.StopDuringReRegisterLeaks` | src/WsSubscriber.ts:486-501 | the run in which a stop during the old group's DELETE leaves the new group |
| `GroupWitnesses.StopBehindTheAnswerLeaks` | src/WsSubscriber.ts:486-501 | the run in which a stop between the 201 and its continuation leaves it |
| `GroupWitnesses.SecondStopSweeps` | src/WsSubscriber.ts:383-440 | a second stop, or `closeAll`, deletes that group and its entry |
| `GroupWitnesses.LateStopHitsAnother` | src/RobotManager.ts:5058-5064 | stopping a given-up subscription takes away the entry and the group of a later one whose group has the same id |
| `GroupWitnesses.RestartReissuesAnId` | src/WsSubscriber.ts:367 | after a restart of the controller a new entry can overwrite that of a live subscription |
| `GroupWitnesses.UnansweredCreateAbandons` | src/WsSubscriber.ts:509-531 | the run in which a create that timed out leaves a group that nobody holds |
| `GroupQueue.StepMirrors` | src/HttpSession.ts:557-568 | the requests a step of the accounting queues on a reachable session queue stand there in the same order, and its DELETEs cut there exactly the creates it cuts |
| `GroupQueue.OtherRequestMirrors` | src/HttpSession.ts:378-394 | any other request queued on the session cuts there exactly the creates it cuts in the accounting, for a release those not sent |
| `GroupQueue.TurnMirrors` | src/HttpSession.ts:569-594 | a turn of the session's queue returns the oldest request of the accounting, whose answer keeps both alike, or none of its requests |
| `GroupQueue.RunTogether` | src/HttpSession.ts:542-594 | over every run of both from a new session the waiting requests are the same jobs in the same order, and a waiting create is cut in the accounting exactly if its job is aborted |
| `Registration.Register` | src/WsSubscriber.ts:573-608 | it returns the first group if no panel resource is refused, else the second exactly if that is made without one, and throws otherwise; one or two creates accordingly; exactly one new group on return and none on a throw; the kept body, `unbound` and the answer belong together |
| `DnsNames.ReadName` | src/MdnsDiscovery.ts:117-140 | the loop ends on every byte string and returns the recursive reading, error by error |
| `DnsNames.ReadNameIsMeaning` | src/MdnsDiscovery.ts:110-116 | a name is returned if and only if it stands at the offset behind at most 64 pointers (section 4.1.4 of RFC 1035); offset < next <= length |
| `DnsNames.ReadsWhatStands` | src/MdnsDiscovery.ts:117-140 | any compression of a name within the jump budget is read back, without looking past its last byte |
| `DnsNames.CompressedReadBack` | src/MdnsDiscovery.ts:126-131 | any labels and a pointer written to a name that stands below offset 2^14 are read as the labels and that name |
| `DnsNames.StandsWhatIsRead` | src/MdnsDiscovery.ts:117-140 | whatever is read stands in the packet |
| `DnsNames.PointerToItself` | src/MdnsDiscovery.ts:128 | a self-pointing name is refused as a pointer loop |
| `DnsNames.CutReadsTheSame` | src/MdnsDiscovery.ts:122-136 | what a truncated packet still reads as a name the whole packet reads the same |
| `DnsNames.LabelsReadAreShort` | src/MdnsDiscovery.ts:131-136 | no label read has more than 63 bytes |
| `DnsNames.SplitJoins` | src/MdnsDiscovery.ts:97 | the dot-free parts of a name give it back |
| `DnsNames.BuildPtrQuery` | src/MdnsDiscovery.ts:91-107 | the query is the header, the encoded labels and type and class |
| `DnsDiscovery.QueryBytes` | src/MdnsDiscovery.ts:91-107 | the twelve bytes before the name and the four behind it |
| `DnsNames.QueryReadBack` | src/MdnsDiscovery.ts:91-107 | readName recovers the labels the query was built from if and only if each takes at most 63 bytes |
| `DnsRecords.ParseTxt` | src/MdnsDiscovery.ts:143-158 | the loop stays inside the data and builds the entries of its strings |
| `DnsRecords.TxtReadBack` | src/MdnsDiscovery.ts:143-158 | parseTxt finds exactly the non-empty strings that were encoded (section 6.3 of RFC 6763) |
| `DnsRecords.LastStringWins` | src/MdnsDiscovery.ts:153-155 | a key has a value if and only if the last string with that key has it |
| `DnsDiscovery.TxtEntry` | src/MdnsDiscovery.ts:153-155 | `key=value` splits at the first '=', the key in lower case; a text without one is the key of an empty value |
| `DnsDiscovery.TypeBytes` | src/MdnsDiscovery.ts:83-87 | the two bytes that name each record type |
| `DnsRecords.RecordStore.constructor` | src/MdnsDiscovery.ts:289 | a discovery starts with four empty maps |
| `DnsRecords.RecordStore.RegisterInstance` | src/MdnsDiscovery.ts:186-190 | an instance is stored under its lower-cased name |
| `DnsRecords.RecordStore.IngestData` | src/MdnsDiscovery.ts:201-214 | one record's data changes the store as the model says, or throws and changes nothing |
| `DnsRecords.RecordStore.IngestRecord` | src/MdnsDiscovery.ts:192-215 | the same for a whole record, header checks included |
| `DnsRecords.RecordStore.IngestRecords` | src/MdnsDiscovery.ts:192-215 | the record loop, stopped by the first throw with earlier records kept |
| `DnsRecords.RecordStore.IngestPacket` | src/MdnsDiscovery.ts:175-216 | the method is the model's reading of a packet, on arbitrary bytes, every read in bounds |
| `DnsRecords.AnyPacketsLeaveSound` | src/MdnsDiscovery.ts:186-212 | after any packets, malformed ones included, SRV and TXT keys are instance keys, and each instance is named by a name whose first label carries the prefix |
| `DnsRecords.RecordsKeepSound` | src/MdnsDiscovery.ts:192-215 | any records keep this and never remove an instance |
| `DnsPackets.RecordReads` | src/MdnsDiscovery.ts:192-215 | a record that stands in a packet, names compressed anyhow, is absorbed as what it means, or is an SRV of an instance with less than eight bytes |
| `DnsPackets.CutRecordFails` | src/MdnsDiscovery.ts:192-199 | a record cut before its end has no effect |
| `DnsPackets.CutPacket` | src/MdnsDiscovery.ts:175-216 | of a packet cut anywhere behind its header exactly the records wholly before the cut are absorbed, in order, up to the first refused one |
| `DnsPackets.WholePacket` | src/MdnsDiscovery.ts:175-216 | a whole packet is the fold of its records up to the first refused one |
| `DnsEncoding.EncodedStands` | src/MdnsDiscovery.ts:175-216 | the plain encoding of a reply is a packet in which its questions and records stand |
| `DnsEncoding.EncodingInverted` | src/MdnsDiscovery.ts:175-216 | ingestPacket inverts the plain encoding: all records if no instance announces no service, else exactly those before the first such record |
| `DnsEncoding.NoServiceLosesTheNext` | src/MdnsDiscovery.ts:175-216 | a reply whose first instance announces no service: the service of the second is lost |
| `DnsEncoding.TruncationAbsorbsWholeRecords` | src/MdnsDiscovery.ts:175-216 | of an encoding cut anywhere, inside its header included, exactly the records wholly before the cut are absorbed, up to the first instance that announces no service |
| `DnsControllers.BuildControllers` | src/MdnsDiscovery.ts:226-262 | one controller for each instance name that has a port, from the first such instance heard, in that order |
| `DnsControllers.NamesAreSystems` | src/MdnsDiscovery.ts:236-259 | no two controllers share a name, each name is the prefix and the system name, each port is positive |
| `DnsControllers.EveryPortIsReported` | src/MdnsDiscovery.ts:232-259 | every instance with a port is reported, by name |
| `DnsDiscovery.PortExactly` | src/MdnsDiscovery.ts:232-233 | the port is the one the TXT entry announces, else the SRV port, else there is none |
| `DnsDiscovery.FieldsExactly` | src/MdnsDiscovery.ts:234-252 | host, versions, numbers and protocol of a controller, each by the records that give it |
| `DnsDiscovery.DiscoveredFromBytes` | src/MdnsDiscovery.ts:175-262 | from the bytes of a reply with an SRV and an A record exactly that controller is reported, at the host's address and port |
| `JsonRepair.DropTrailingCommas` | src/HalJsonParser.ts:54-73 | the index loop writes the repair of the text |
| `JsonRepair.CloserFollows` | src/HalJsonParser.ts:65-67 | the inner loop finds whether only white space separates the comma from a closer |
| `JsonRepair.RemovesExactlyTrailingCommas` | src/HalJsonParser.ts:48-53 | exactly the commas outside literals that only white space separates from a closer go; all else stays verbatim |
| `JsonRepair.RepairsEveryPrint` | src/HalJsonParser.ts:48-53 | for every JSON value and layout (atoms, literals and white space taken wider than RFC 8259), commas before the closers are repaired to the strict print, which is itself unchanged |
| `JsonRepair.LayoutsAreCovered` | src/HalJsonParser.ts:66 | every layout in the white space of RFC 8259 is one of them |
| `JsonRepair.AtomsAreCovered` | src/HalJsonParser.ts:48-53 | so is every number, true, false and null |
| `JsonRepair.SpaceByCode` | src/HalJsonParser.ts:66 | the characters skipped, by their codes |
| `JsonRepair.IdempotentExactly` | src/HalJsonParser.ts:54-73 | a second repair changes nothing if and only if no comma outside a literal stands, but for white space, right before another that only white space separates from a closer |
| `JsonRepair.NotIdempotent` | src/HalJsonParser.ts:54-73 | two commas in a row lose one per repair |
| `Entities.DecodeIsOneScan` | src/ResponseParser.ts:51-59 | the six replacements in order are one left-to-right scan that never reads its output |
| `Entities.DecodeEscape` | src/ResponseParser.ts:51-59 | decoding the standard escape of any text gives it back |
| `Entities.AmpersandMustBeLast` | src/ResponseParser.ts:58 | with the ampersand first a doubly escaped text would lose a level |
| `Paging.ReadPages` | src/commonReads.ts:83-97 | the bodies of the longest walk along the links that stays on the resource, repeats no path and keeps to the page limit; each page asked for once; a failing page fails the read |
| `Paging.LongestWalkIsUnique` | src/commonReads.ts:88-95 | there is only one such walk |
| `Paging.WalkGoesOnExactly` | src/commonReads.ts:86-95 | a walk goes on to a link exactly if that names the text before the first '?' of the first path, is not empty, was not read yet, and pages are left |
| `Paging.WalkBegins` | src/commonReads.ts:88 | it begins at the first path |
| `Paging.ListAllSignals` | src/RwsClient.ts:1137-1162 | the entries of the pages along the same walk, cut behind the first page without entries |
| `Paging.CutWalk` | src/RwsClient.ts:1149-1152 | not following links of empty pages is cutting the walk there |
| `Paging.GetEventLog` | src/RwsClient.ts:1325-1343 | each message once, where it first stands, over the walk or over exactly the pages before the first later page that fails; a failing first page fails the read |
| `Paging.KeepFirstIsFirsts` | src/RwsClient.ts:1338-1339 | the kept messages are exactly the first occurrences of their numbers, in order |
| `Paging.DropRepeats` | src/RwsClient.ts:1338-1339 | the filter over the seen numbers keeps those |
| `Paging.TolerantEnd` | src/RwsClient.ts:1329-1337 | a later page that fails ends the walk and adds nothing |
| `MultiRobot.MapsStayConsistent` | src/MultiRobotManager.ts:145-222 | with no removal during the robot's own connect, manager and config keys coincide and the active id is null exactly when there are no robots, else a configured one |
| `MultiRobot.ConsistentExactly` | src/MultiRobotManager.ts:199-245 | in any interleaving this holds at every moment if and only if no connect of a removed robot succeeds with a new port or a free slot |
| `MultiRobot.RemovalInFlightBreaks` | src/MultiRobotManager.ts:221-240 | the run in which a cancelled connect, its manager down, makes the removed robot active and brings its config back |
| `MultiRobot.HeldExactly` | src/MultiRobotManager.ts:145-159 | from any state of the slot invariant, the slot is held at every moment exactly when every add is safe |
| `MultiRobot.AddKeeps` | src/MultiRobotManager.ts:156 | adding keeps the slot exactly when the empty id is not active beside a connected robot |
| `MultiRobot.ActiveFollowsConnects` | src/MultiRobotManager.ts:199-245 | while every connect that succeeds leaves its manager connected: in every order of connect starts and finishes the active robot is connected or connecting, or none that is done connecting is connected, exactly when the adds are safe |
| `MultiRobot.QuietFleetShowsAConnectedRobot` | src/MultiRobotManager.ts:228-245 | at quiescence a connected robot implies a connected active one |
| `MultiRobot.EmptyIdLosesTheSlot` | src/MultiRobotManager.ts:156 | the run in which the connected robot with the empty id loses the slot |
| `FleetEffects.SelectionHolds` | src/MultiRobotManager.ts:190-195 | a configured robot selected becomes active and stays so in every run while it is connected or connecting and not removed; an unknown one changes nothing |
| `FleetEffects.NextConnectUsesThePort` | src/MultiRobotManager.ts:216-222 | a new port that a connect found is the one the robot's next connect begins with; no other configuration changes |
| `FleetEffects.RemovedStaysDown` | src/MultiRobotManager.ts:178-188 | the manager of a robot removed while it was down never comes up, whatever connects still run |
| `FleetEffects.SwingIsOfItsManager` | src/MultiRobotManager.ts:199-213 | a connect moves its own manager only, up only if it was not cancelled |
| `MultiRobotFleet.MultiRobotManager.constructor` | src/MultiRobotManager.ts:57-61 | a new manager is the initial fleet |
| `MultiRobotFleet.MultiRobotManager.AddRobot` | src/MultiRobotManager.ts:145-159 | adding is the add step |
| `MultiRobotFleet.MultiRobotManager.RemoveRobot` | src/MultiRobotManager.ts:178-188 | removing is the remove step: the manager is told to disconnect, which cancels its connect, and the first robot left takes the slot |
| `MultiRobotFleet.MultiRobotManager.SetActive` | src/MultiRobotManager.ts:190-195 | only a configured robot can be selected |
| `MultiRobotFleet.MultiRobotManager.StartConnect` | src/MultiRobotManager.ts:199-206 | the part before the await is the start step |
| `MultiRobotFleet.MultiRobotManager.FinishConnect` | src/MultiRobotManager.ts:207-225 | the part after it, failed or connected, is the finish step |
| `MultiRobotFleet.MultiRobotManager.ChooseActive` | src/MultiRobotManager.ts:235-245 | the choice of the active robot is the model's |

## Left out

- Sockets, `fetch`, `node:http`, TLS and dgram are events of the environment; MD5, the random cnonce and the digest response are not modelled, only the counter, the nonce and what is sent when.
- Parsing of `WWW-Authenticate`, `qop` lists and `Set-Cookie` lines: the models take the parsed challenge and the parsed name and value pairs.
- `QueueRuns.StartsArePaced`: the retries after a 401 or a 503 are outside the pacing claim, as they are in the code; the 200 ms wait before a 503 retry is not modelled.
- `QueueRuns.EveryAcceptedRequestRuns`: says that each request can be driven to settle; `QueueRuns.EveryBusyRunSettles` says it of every run, counted in job steps, and no model says that a controller answers.
- `QueueRuns.CutCreatesStaySilent`: the retries inside a call are one opaque sending step there; that a cut stops each of them is `AuthCuts.CutEndsTheCall`.
- The queue and the call inside its turn are two models: the queue leaves open which sendings a call makes, and the call leaves open when its turn comes.
- Redirects, which `fetch` follows by itself, are part of one sending.
- `clearSession`, the cookie file, redaction, logging and error texts.
- `SubscriptionBody.SwapBody`: paths contain no `&`; a path with one is split by the form itself.
- `SubscriptionBody.RetriedBody`: no resource is refused in both its spellings; `Respelling.RetriedExactly` covers these, for refused resources that were sent and are named once.
- `Registration.Register`: a 201 with an unusable Location counts as a throw of register, although a first answer's Location is read only by the caller when nothing was refused; the group it made stays, as in the code.
- `GroupRuns.GroupsAreHeldOnce`: DELETEs that fail, and 201 answers without a usable Location, leave groups too; both are excluded.
- `GroupClosing.ClosingLeaksExactly`: requests refused by a closed session are not steps of the accounting; the end of a session is its `Restart`, which takes every group with it.
- `GroupQueue.RunTogether`: creates and group DELETEs that other code sends on the session are outside the accounting; a DELETE of theirs counts only for what it cuts. A disconnect counts as its /logout and a close.
- Event parsing and the error text about a second socket in `WsSubscriber`.
- `DnsNames.QueryReadBack`: for labels that survive UTF-8, so not for lone surrogates.
- Section-by-section counting of a packet's records is one count, as in the code, and the address of an A record is kept as its four bytes, not as dotted text.
- `DnsControllers.BuildControllers`: takes the order of the instance map as an argument, and `parseInt` as a function.
- The discovery's timers, interfaces and sockets.
- `nextPagePath` is a parameter of the page walks, and the parsers of signals and messages are too; the log lines at the end of a walk are left out.
- The traversals and getters of `HalJsonParser` would add members about lookups only.
- `updateConfig`, notifications, the control-station check, `disconnectRobot` and serialization in `MultiRobotManager`.
- `MultiRobot.QuietFleetShowsAConnectedRobot`: without removals, selections by hand and spontaneous disconnects, a connect that resolves with its manager down included.
- `RWS1Adapter`, the resource mappers, the XHTML readers and the RWS 2.0 client are tables, lookups and unit conversions.
