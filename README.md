# Diameter Ro charging server — charging-session model

This project models the charging-session logic of the Mobicents Diameter Ro /
Credit-Control server (RFC 4006), as implemented in the root SBB
`DiameterChargingServerSbb`:

- **Result-code mapping** (`getResultCode`): the account manager's error kind
  becomes a Diameter result code.
- **Answer construction** (`createCCA`): a Credit-Control-Answer (section 3.2 of
  RFC 4006) that echoes CC-Request-Type and CC-Request-Number and carries the
  overall result code. For each collected reservation it adds one
  Multiple-Services-Credit-Control (MSCC) entry, which copies the rating group and
  service identifiers of the request MSCC at the same index. A granted entry
  carries the granted units and DIAMETER_SUCCESS. A refused entry carries only the
  mapped code. Every entry has Validity-Time 86400.
- **Request handling** (`onCreditControlRequest`): reject an unreadable
  Subscription-Id, arm the 15 s liveness timer for Initial/Update, dispatch one
  asynchronous reservation call to the account manager, store the pending request
  in the SBB's fields and suspend. Event requests only detach.
- **Resume** (`resumeOnCreditControlRequest`): append the outcome. Once the
  number of outcomes equals the stored request's MSCC count, build the answer
  and send it.
- **Liveness timer** (`onTimerEvent`): detach from the Ro session activity and end it.

Files:

- `diameter.dfy` (module `Diameter`): request, answer, reservation and
  reservation-call values; Diameter result codes; Java `long` addition
  (`WrapLong`) and the `(int)` cast of the request number (`IntCast`).
- `answers.dfy` (module `Answers`): `GetResultCode`, the answer `Cca` as a
  function, and `CreateCca`, the index loop that builds it.
- `session.dfy` (module `Session`): the class `ChargingServerSbb`. Its fields are
  the source's stored fields (`storedCCR`, `storedEndUserId`,
  `storedRequestedUnits`, `storedServiceIds`, `storedReservations`). Further
  fields record effects on the outside world: dispatched reservation calls, sent
  answers, armed timer deadlines, and the attached and activity-ended flags. Each
  handler is proved to change the whole state as a pure step function says
  (`OnRequest`, `Resume`, `TimerFired`).
- `properties.dfy` (module `SessionProperties`): lemmas about one request and
  about any sequence of resume callbacks (`ResumeAll`).

The clock is a parameter (`now`, in ms). The account manager, the Ro stack and
the timer facility are the outboxes named above.

Two pieces of container behaviour are part of the model because the session's
outcome depends on them. Every request is an initial event whose convergence
name is its Session-Id (`onCreditControlRequestInitialEventSelect`). While the
session's SBB entity is attached to the Ro activity, it receives the request.
Once it has detached, the container has removed it, and the next request creates
a fresh entity with the default field values (`Session.Receiver`). A timer event
is fired on the Ro activity, so it reaches the SBB only while the SBB is attached.

Behaviours of the code worth noting, all of which the model keeps:

- The overall result code of a resumed answer comes from the outcome that
  just arrived. It does not come from the first failing outcome.
- Only the first MSCC of a request is dispatched, because the loop returns in
  its first iteration. A request with more than one MSCC is never answered
  (`NoAnswerAfterSingleCallback`, `AnsweredOnlyByLastCallback`).
- A Termination request that has MSCCs is answered through resume. That answer
  contains an MSCC entry, with granted units if the outcome succeeded. Only a
  Termination without MSCCs gets the bare DIAMETER_SUCCESS answer.
- A missing or empty Service-Context-Id does not reject the request. The
  rejection answer is built and then dropped (`ServiceContextIdIgnored`).
- Stale or duplicate callbacks are not refused. They are appended to
  `storedReservations`, but they never cause a second answer
  (`LateCallbackIgnored`).
- The liveness timer is armed only for Initial and Update, not for Termination.
- The liveness timer is never cancelled. Nothing in the source cancels it once the answer is sent, and the model has no cancel operation either.

## Model

| member | source | states |
|---|---|---|
| `Diameter.WrapLong` | sbb/src/main/java/org/mobicents/charging/server/DiameterChargingServerSbb.java:336-340 | Java `long` addition: the result differs from the exact sum by a multiple of 2^64 and equals it when the sum fits in a `long` |
| `Diameter.IntCast` | sbb/src/main/java/org/mobicents/charging/server/DiameterChargingServerSbb.java:341 | the `(int)` cast of CC-Request-Number keeps the low 32 bits: unchanged below 2^31, negative exactly from 2^31 on |
| `Answers.GetResultCode` | sbb/src/main/java/org/mobicents/charging/server/DiameterChargingServerSbb.java:171-189 | total mapping: USER_UNKNOWN iff InvalidUser; END_USER_SERVICE_DENIED iff BadRoamingCountry or NoServiceForUser; CREDIT_LIMIT_REACHED iff NotEnoughBalance; UNABLE_TO_DELIVER iff any other kind; never SUCCESS |
| `Answers.Cca` | sbb/src/main/java/org/mobicents/charging/server/DiameterChargingServerSbb.java:500-601 | the answer echoes session id, request type and request number and carries the given code. It has one MSCC per reservation (none for an empty list). Entry i copies rating group and service ids of request MSCC i and has validity time 86400. It has granted units equal to the reservation's units and SUCCESS iff the reservation succeeded; otherwise it has the mapped code |
| `Answers.AnswerEntry` | sbb/src/main/java/org/mobicents/charging/server/DiameterChargingServerSbb.java:556-572 | one answered MSCC: rating group and service ids of the request MSCC, validity time 86400, granted units and SUCCESS iff the reservation succeeded, the mapped code otherwise |
| `Answers.CreateCca` | sbb/src/main/java/org/mobicents/charging/server/DiameterChargingServerSbb.java:552-574 | the index loop builds exactly the answer `Cca` describes |
| `Session.SumOctets` | sbb/src/main/java/org/mobicents/charging/server/DiameterChargingServerSbb.java:338-340 | the used-units argument: the left-to-right `long` sum of the Used-Service-Unit octets (the `+=` loops at lines 338-340 and 401-404). It always agrees with the exact total `TotalOctets` modulo 2^64; `SessionProperties.SumOctetsExact` shows it equals that total when the counts are non-negative and the total fits in a `long` |
| `Session.SumUsedUnits` | sbb/src/main/java/org/mobicents/charging/server/DiameterChargingServerSbb.java:399-404 | the used-units loop returns the `long` sum `SumOctets` of the Used-Service-Unit octets |
| `Session.Receiver` | sbb/src/main/java/org/mobicents/charging/server/DiameterChargingServerSbb.java:134-141 | the entity a request reaches is always attached: the session's entity while it is attached, otherwise a fresh one with no stored request, no subscriber, no service ids, 0 requested units and no outcomes; calls, answers, timers and the activity-ended flag are kept |
| `Session.OnRequest` | sbb/src/main/java/org/mobicents/charging/server/DiameterChargingServerSbb.java:249-485 | a request, run by `Receiver`'s entity, makes one reservation call exactly when it dispatches (`Dispatches`). The entity stays attached iff the subscriber is readable and the request is not an Event. A dispatching request sends no answer, stores itself and empties the outcomes. Any other request leaves the receiving entity's pending state alone and sends at most one answer |
| `Session.HandlerStep` | sbb/src/main/java/org/mobicents/charging/server/DiameterChargingServerSbb.java:249-485 | the handler body on a given entity: one call exactly when it dispatches; attached afterwards iff it was attached, the subscriber is readable and the request is not an Event; a dispatching request sends nothing and stores itself with no outcomes; any other request keeps the pending state and sends at most one answer |
| `Session.OutcomeCode` | sbb/src/main/java/org/mobicents/charging/server/DiameterChargingServerSbb.java:617-632 | the resumed answer's overall code is SUCCESS iff the arriving outcome succeeded, and otherwise `GetResultCode` of that outcome's error kind |
| `Session.InitialOrUpdate` | sbb/src/main/java/org/mobicents/charging/server/DiameterChargingServerSbb.java:301-373 | the Initial/Update branch arms the timer at now + 15000 in every case. Without MSCCs it answers DIAMETER_MISSING_AVP at once and makes no call. When the first MSCC has no Requested-Service-Unit it only arms the timer. Otherwise it makes one call, for the first MSCC's requested units and subscriber (an update call iff the request is an Update), sends nothing, and stores the request, subscriber and service ids with no outcomes |
| `Session.Resume` | sbb/src/main/java/org/mobicents/charging/server/DiameterChargingServerSbb.java:610-643 | each callback appends exactly its outcome and dispatches nothing. It sends at most one answer, and sends one iff the SBB is attached, a request is stored and the new count equals that request's MSCC count |
| `Session.TimerFired` | sbb/src/main/java/org/mobicents/charging/server/DiameterChargingServerSbb.java:487-491 | on an attached SBB the timer detaches and ends the activity; on a detached one it changes nothing. Either way it sends, dispatches and arms nothing and keeps the pending state |
| `Session.ChargingServerSbb.constructor` | sbb/src/main/java/org/mobicents/charging/server/DiameterChargingServerSbb.java:604-608 | a new SBB has no stored request and an empty reservation list, and is attached |
| `Session.ChargingServerSbb.OnCreditControlRequest` | sbb/src/main/java/org/mobicents/charging/server/DiameterChargingServerSbb.java:249-485 | the handler changes fields and outboxes exactly as `OnRequest` says |
| `Session.ChargingServerSbb.Deliver` | sbb/src/main/java/org/mobicents/charging/server/DiameterChargingServerSbb.java:134-141 | delivering a request changes the state exactly as `Receiver` says: a detached entity is replaced by a fresh, attached one |
| `Session.ChargingServerSbb.HandleRequest` | sbb/src/main/java/org/mobicents/charging/server/DiameterChargingServerSbb.java:249-485 | the handler body changes fields and outboxes exactly as `HandlerStep` says |
| `Session.ChargingServerSbb.InitialOrUpdateRequest` | sbb/src/main/java/org/mobicents/charging/server/DiameterChargingServerSbb.java:301-373 | the Initial/Update branch changes fields and outboxes exactly as `InitialOrUpdate` says |
| `Session.ChargingServerSbb.StorePending` | sbb/src/main/java/org/mobicents/charging/server/DiameterChargingServerSbb.java:342-346 | stores request, subscriber, requested units and service ids, and starts a new empty reservation list; the outboxes are unchanged |
| `Session.ChargingServerSbb.ResumeOnCreditControlRequest` | sbb/src/main/java/org/mobicents/charging/server/DiameterChargingServerSbb.java:610-643 | the callback changes fields and outboxes exactly as `Resume` says |
| `Session.ChargingServerSbb.OnTimerEvent` | sbb/src/main/java/org/mobicents/charging/server/DiameterChargingServerSbb.java:487-491 | the timer handler, delivered only while attached, changes the state exactly as `TimerFired` says |
| `SessionProperties.SumOctetsExact` | sbb/src/main/java/org/mobicents/charging/server/DiameterChargingServerSbb.java:336-341 | for non-negative octet counts whose total fits in a `long`, the used-units argument is the exact total |
| `SessionProperties.RejectsUnreadableSubscriber` | sbb/src/main/java/org/mobicents/charging/server/DiameterChargingServerSbb.java:264-295 | without readable Subscription-Id data, exactly one DIAMETER_MISSING_AVP answer with no MSCCs is sent. No call is made, no timer is armed, the receiving entity's pending state is unchanged, and it detaches |
| `SessionProperties.InitialOrUpdateDispatchesFirst` | sbb/src/main/java/org/mobicents/charging/server/DiameterChargingServerSbb.java:301-358 | Initial/Update arms one timer at now + 15000 and makes exactly one call with the first MSCC's requested units. For Update the call also carries the `long` sum of that MSCC's used octets and the cast request number. No answer is sent; the request is stored with empty outcomes |
| `SessionProperties.TerminationDispatchesFirst` | sbb/src/main/java/org/mobicents/charging/server/DiameterChargingServerSbb.java:375-411 | Termination with MSCCs calls `terminateRequest` with 0 requested units and the first MSCC's used-octet sum. It sends nothing, arms no timer, and stores the request with empty outcomes |
| `SessionProperties.NoMsccAnsweredAtOnce` | sbb/src/main/java/org/mobicents/charging/server/DiameterChargingServerSbb.java:323-466 | a request without MSCCs is answered at once, with MISSING_AVP for Initial/Update and SUCCESS for Termination; no call is made |
| `SessionProperties.MissingRequestedUnitsOnlyArmsTimer` | sbb/src/main/java/org/mobicents/charging/server/DiameterChargingServerSbb.java:304-372 | Initial/Update whose first MSCC lacks a Requested-Service-Unit only arms the timer on the receiving entity: the exception is caught, so no call is made and no answer is sent |
| `SessionProperties.EventOnlyDetaches` | sbb/src/main/java/org/mobicents/charging/server/DiameterChargingServerSbb.java:473-478 | an Event request only detaches the receiving entity |
| `SessionProperties.ServiceContextIdIgnored` | sbb/src/main/java/org/mobicents/charging/server/DiameterChargingServerSbb.java:310-320 | the Service-Context-Id, missing, empty or set, does not change any effect of the request |
| `SessionProperties.ResumeAllAppends` | sbb/src/main/java/org/mobicents/charging/server/DiameterChargingServerSbb.java:616 | after any sequence of callbacks the reservation list is the old list followed by exactly those outcomes, in arrival order; nothing is dispatched |
| `SessionProperties.DetachedSendsNothing` | sbb/src/main/java/org/mobicents/charging/server/DiameterChargingServerSbb.java:633-664 | a detached SBB never sends an answer from a callback |
| `SessionProperties.TimerSilencesSession` | sbb/src/main/java/org/mobicents/charging/server/DiameterChargingServerSbb.java:487-491 | after the timer fires, no sequence of callbacks sends an answer |
| `SessionProperties.AnswerSentOnce` | sbb/src/main/java/org/mobicents/charging/server/DiameterChargingServerSbb.java:616-642 | over any sequence of callbacks, at most one answer is sent. It is sent exactly when the count reaches the stored request's MSCC count N while attached. It pairs the first N outcomes with the request's MSCCs and takes its code from the N-th outcome alone |
| `SessionProperties.AnsweredOnlyByLastCallback` | sbb/src/main/java/org/mobicents/charging/server/DiameterChargingServerSbb.java:327-642 | after a dispatching request with N MSCCs, from any state (also after an earlier answer detached the SBB), fewer than N callbacks send nothing. The N-th callback sends the one answer built from the first N outcomes |
| `SessionProperties.AnsweredFromSuspended` | sbb/src/main/java/org/mobicents/charging/server/DiameterChargingServerSbb.java:616-642 | from a suspended state holding a request with N > 0 MSCCs and no outcomes, fewer than N callbacks send nothing and the N-th sends the one answer built from the first N outcomes with the N-th outcome's code |
| `SessionProperties.NoAnswerAfterSingleCallback` | sbb/src/main/java/org/mobicents/charging/server/DiameterChargingServerSbb.java:327-358 | with N > 1 MSCCs, the one dispatched call's callback never produces an answer |
| `SessionProperties.SingleMsccRoundTrip` | sbb/src/main/java/org/mobicents/charging/server/DiameterChargingServerSbb.java:610-643 | one MSCC, one callback, from any state: one answer with one MSCC that answers the request MSCC with that outcome. Its overall code is SUCCESS iff the outcome succeeded, and the SBB detaches |
| `SessionProperties.LateCallbackIgnored` | sbb/src/main/java/org/mobicents/charging/server/DiameterChargingServerSbb.java:633-642 | once the count has reached the MSCC count, further callbacks never send another answer |
| `SessionProperties.ExchangeAnswered` | sbb/src/main/java/org/mobicents/charging/server/DiameterChargingServerSbb.java:134-643 | one single-MSCC request and its callback add exactly that request's answer, whatever the state before, detached included |
| `SessionProperties.EveryRequestAnswered` | sbb/src/main/java/org/mobicents/charging/server/DiameterChargingServerSbb.java:134-643 | in a session of single-MSCC requests (Initial, Updates, Termination), each request and its callback, in turn, give the answers one per request and in order, although each answer detaches the SBB |

## Left out

- Container plumbing is not modelled: `setSbbContext`/`unsetSbbContext`, the child-relation lookups `getDatasource`/`getAccountManager` (including their exceptions) and `getServerSessionActivityToReply`. `onCreditControlRequestInitialEventSelect` appears only as its effect, the choice of the receiving entity (`Session.Receiver`). The last one appears only as its effect: when attached, it detaches and supplies the Ro session to reply on; when detached, no reply is possible.
- `onServiceStartedEvent` is not modelled. It does properties-file I/O and datasource provisioning, and its bypass flag is used only inside the account manager.
- Logging is not modelled: `tracer` output, `updateAccountDataResult`, and the `dump` call at the end of the request handler.
- Send failures are not modelled. An `IOException` on send is caught and logged, and the model records every send attempt as sent.
- Uncaught runtime exceptions are not modelled beyond their local effect. These are the null account manager at the final `dump` on the Event path, and the null dereferences on resume without a stored request or without an attached activity. The model stops the handler at that point; the container's transaction rollback and `sbbExceptionThrown` are not modelled. With no stored request, resume appends the outcome before failing; this is the order with info tracing off. With info tracing on, the source dereferences the stored request at line 613, before the append at line 616, so nothing is appended; nothing observable depends on this.
- Timer scheduling is not modelled, nor the race between the timer and a callback. A timer is a recorded deadline, and firing is a discrete event (`OnTimerEvent`).
- The AVP factory and wire encoding are not modelled. Requests and answers are plain datatypes. The answer's Session-Id is taken from the request; in the source it comes from the Ro session the answer is created on. Origin-Host, Origin-Realm and Auth-Application-Id are not modelled.
- The answers built and dropped for a missing Subscription-Id (first build), a missing Service-Context-Id or an empty one (DIAMETER_INVALID_AVP_VALUE) are never sent. The model does not build them.
- The declaration of `ErrorCodeType` is not part of this model. The error kinds are the seven the switch names, so its `default` arm has no separate case, and a null error kind on a refused reservation is not modelled.
- `Answers.Cca` and `Answers.CreateCca` require no more reservations than request MSCCs. The source would throw an index exception otherwise, and its only callers pass equal counts.
- A null MSCC or Used-Service-Unit array is not modelled; both are sequences, and an absent list is the empty sequence. In the source a null array throws in the for-each (lines 327, 338, 382, 401), and the handler catches it: no call and no answer, with the Initial/Update timer still armed. The model instead answers DIAMETER_MISSING_AVP (no MSCC, Initial/Update), answers DIAMETER_SUCCESS (no MSCC, Termination), or dispatches with 0 used units (no Used-Service-Unit).
- The rest of the SBB entity life cycle is not modelled. A callback that reaches a detached entity is appended and unanswered in the model; in the server that entity has been removed. The next request discards the list either way. Requests after the timer has ended the Ro activity are not excluded; the activity-ended flag keeps its value. A fresh entity starts from the default field values, although the container may reuse a pooled SBB object whose plain instance fields still hold an earlier entity's values. A fresh entity dispatches before any callback reaches it, so no answer depends on those values.
