/** The charging-session handling of `DiameterChargingServerSbb`: the request
    handler, the resume callback from the account manager and the liveness timer.

    The SBB keeps its pending request in plain instance fields. Everything the
    handlers do to the outside world is recorded in fields of the class as well:
    the reservation calls dispatched to the account manager, the answers sent on
    the Ro server session, the timers armed, whether the SBB is still attached to
    that session's activity and whether the activity was ended. Each handler is
    proved to move the whole state exactly as a pure step function says. */
module Session {
  import opened Diameter
  import opened Answers

  /** Delay of the liveness timer armed for Initial and Update requests, in ms. */
  const TIMER_DELAY_MS: int := 15000

  /** What the SBB's handlers have done to the outside world so far. */
  datatype Env = Env(
    calls: seq<ReservationCall>,
    sent: seq<Answer>,
    timers: seq<int>,
    attached: bool,
    activityEnded: bool)

  /** The SBB's stored fields together with its effects on the outside world. */
  datatype SbbState = SbbState(
    storedCCR: Option<Request>,
    storedEndUserId: Option<string>,
    storedRequestedUnits: Long,
    storedServiceIds: Option<seq<int>>,
    storedReservations: seq<UnitReservation>,
    env: Env)

  /** A freshly created SBB, attached to the session's activity. */
  function InitialState(): SbbState
  {
    SbbState(None, None, 0, None, [], Env([], [], [], true, false))
  }

  // ---------------------------------------------------------------------------
  // Pieces of the request handler

  /** The subscriber: the data of the first Subscription-Id, if it can be read. */
  function EndUserId(ccr: Request): Option<string>
  {
    if |ccr.subscriptionIds| > 0 then ccr.subscriptionIds[0].data else None
  }

  /** The exact total of the used octets, without Java `long` wrap-around. */
  function TotalOctets(used: seq<Long>): int
  {
    if used == [] then 0 else TotalOctets(used[..|used| - 1]) + used[|used| - 1]
  }

  lemma ModSum(a: int, b: int)
    requires a % TWO_TO_64 == 0 && b % TWO_TO_64 == 0
    ensures (a + b) % TWO_TO_64 == 0
  {
  }

  /** `usedUnitsCount += ...` over the Used-Service-Units, in Java `long`
      arithmetic, summed from the first to the last; it always agrees with the
      exact total modulo 2^64. */
  function SumOctets(used: seq<Long>): (r: Long)
    ensures (TotalOctets(used) - r) % TWO_TO_64 == 0
  {
    if used == [] then 0
    else
      var init := used[..|used| - 1];
      var x := SumOctets(init) + used[|used| - 1];
      ModSum(TotalOctets(init) - SumOctets(init), x - WrapLong(x));
      WrapLong(x)
  }

  /** The loop that sums used units. */
  method SumUsedUnits(usedUnits: seq<Long>) returns (usedUnitsCount: Long)
    ensures usedUnitsCount == SumOctets(usedUnits)
  {
    usedUnitsCount := 0;
    var i := 0;
    while i < |usedUnits|
      invariant 0 <= i <= |usedUnits|
      invariant usedUnitsCount == SumOctets(usedUnits[..i])
    {
      assert usedUnits[..i + 1][..i] == usedUnits[..i];
      usedUnitsCount := WrapLong(usedUnitsCount + usedUnits[i]);
      i := i + 1;
    }
    assert usedUnits[..i] == usedUnits;
  }

  /** True when the request handler dispatches a reservation call, i.e. suspends. */
  predicate Dispatches(ccr: Request)
  {
    && EndUserId(ccr).Some?
    && |ccr.msccs| > 0
    && match ccr.requestType
       case Initial => ccr.msccs[0].requestedUnits.Some?
       case Update => ccr.msccs[0].requestedUnits.Some?
       case Termination => true
       case Event => false
  }

  /** Record a dispatched call and the request's pending state. */
  function Suspend(s: SbbState, call: ReservationCall, ccr: Request, endUserId: string,
                   requestedUnits: Long, serviceIds: seq<int>): SbbState
  {
    s.(storedCCR := Some(ccr), storedEndUserId := Some(endUserId),
       storedRequestedUnits := requestedUnits, storedServiceIds := Some(serviceIds),
       storedReservations := [], env := s.env.(calls := s.env.calls + [call]))
  }

  function Send(s: SbbState, answer: Answer): SbbState
  {
    s.(env := s.env.(sent := s.env.sent + [answer]))
  }

  function Detach(s: SbbState): SbbState
  {
    s.(env := s.env.(attached := false))
  }

  /** The SBB entity a request is delivered to. Every request is an initial event
      whose convergence name is its Session-Id. While the session's entity is
      attached to the Ro activity, it receives the request. Once it has detached
      from that activity, its only one, the container has removed it, and the
      request creates a fresh entity: attached, with the default field values.
      What was already done to the outside world stays. */
  function Receiver(s: SbbState): (e: SbbState)
    ensures e.env.attached
    ensures e.env.calls == s.env.calls && e.env.sent == s.env.sent
    ensures e.env.timers == s.env.timers && e.env.activityEnded == s.env.activityEnded
    ensures s.env.attached ==> e == s
    ensures !s.env.attached ==>
              e.storedCCR.None? && e.storedEndUserId.None? && e.storedRequestedUnits == 0
              && e.storedServiceIds.None? && e.storedReservations == []
  {
    if s.env.attached then s else InitialState().(env := s.env.(attached := true))
  }

  /** `onCreditControlRequest` on state `s` at clock time `now` (in ms), run by
      the entity `Receiver(s)`. The answers built for a missing or empty
      Service-Context-Id are never sent, so they leave no trace here. */
  function OnRequest(s: SbbState, ccr: Request, now: int): (r: SbbState)
    // at most one reservation call, and exactly when Dispatches says so
    ensures |r.env.calls| == |s.env.calls| + (if Dispatches(ccr) then 1 else 0)
    ensures s.env.calls <= r.env.calls
    // the entity stays attached unless the request is rejected or is an Event
    ensures r.env.attached <==> EndUserId(ccr).Some? && ccr.requestType != Event
    // a dispatching request suspends: no answer, fresh pending state
    ensures Dispatches(ccr) ==>
              r.env.sent == s.env.sent && r.storedCCR == Some(ccr) && r.storedReservations == []
    // any other request leaves the receiving entity's pending state alone and
    // sends at most one answer
    ensures !Dispatches(ccr) ==>
              r.storedCCR == Receiver(s).storedCCR && r.storedReservations == Receiver(s).storedReservations
              && |r.env.sent| <= |s.env.sent| + 1 && s.env.sent <= r.env.sent
  {
    HandlerStep(Receiver(s), ccr, now)
  }

  /** The body of `onCreditControlRequest`, run by the entity `e`. */
  function HandlerStep(e: SbbState, ccr: Request, now: int): (r: SbbState)
    ensures |r.env.calls| == |e.env.calls| + (if Dispatches(ccr) then 1 else 0)
    ensures e.env.calls <= r.env.calls
    ensures r.env.attached <==> e.env.attached && EndUserId(ccr).Some? && ccr.requestType != Event
    ensures Dispatches(ccr) ==>
              r.env.sent == e.env.sent && r.storedCCR == Some(ccr) && r.storedReservations == []
    ensures !Dispatches(ccr) ==>
              r.storedCCR == e.storedCCR && r.storedReservations == e.storedReservations
              && |r.env.sent| <= |e.env.sent| + 1 && e.env.sent <= r.env.sent
  {
    match EndUserId(ccr)
    case None =>
      // Subscription-Id missing or unreadable: reject and detach
      Detach(Send(e, Cca(ccr, [], DIAMETER_MISSING_AVP)))
    case Some(endUserId) =>
      match ccr.requestType
      case Initial => InitialOrUpdate(e, ccr, endUserId, now)
      case Update => InitialOrUpdate(e, ccr, endUserId, now)
      case Termination =>
        if |ccr.msccs| == 0 then Send(e, Cca(ccr, [], DIAMETER_SUCCESS))
        else
          var mscc := ccr.msccs[0];
          var requestedUnits := if mscc.requestedUnits.Some? then mscc.requestedUnits.value else 0;
          var call := TerminateRequest(ccr.sessionId, endUserId, 0, SumOctets(mscc.usedUnits), IntCast(ccr.requestNumber));
          Suspend(e, call, ccr, endUserId, requestedUnits, mscc.serviceIds)
      case Event =>
        Detach(e)
  }

  /** The Initial/Update branch: arm the timer, then dispatch for the first MSCC.
      A missing Requested-Service-Unit raises an exception that the handler
      catches and logs, so nothing else happens. */
  function InitialOrUpdate(s: SbbState, ccr: Request, endUserId: string, now: int): (r: SbbState)
    requires ccr.requestType == Initial || ccr.requestType == Update
    // the liveness timer is armed in every case
    ensures r.env.timers == s.env.timers + [now + TIMER_DELAY_MS]
    ensures r.env.attached == s.env.attached && r.env.activityEnded == s.env.activityEnded
    // no MSCC: answered at once with DIAMETER_MISSING_AVP
    ensures |ccr.msccs| == 0 ==>
              r.env.sent == s.env.sent + [Cca(ccr, [], DIAMETER_MISSING_AVP)] && r.env.calls == s.env.calls
              && r.storedCCR == s.storedCCR && r.storedReservations == s.storedReservations
    // first MSCC without Requested-Service-Unit: only the timer
    ensures |ccr.msccs| > 0 && ccr.msccs[0].requestedUnits.None? ==>
              r == s.(env := s.env.(timers := s.env.timers + [now + TIMER_DELAY_MS]))
    // otherwise: one call for the first MSCC, no answer, pending state stored
    ensures |ccr.msccs| > 0 && ccr.msccs[0].requestedUnits.Some? ==>
              && |r.env.calls| == |s.env.calls| + 1 && s.env.calls <= r.env.calls
              && r.env.calls[|s.env.calls|].requestedUnits == ccr.msccs[0].requestedUnits.value
              && r.env.calls[|s.env.calls|].endUserId == endUserId
              && (ccr.requestType == Update <==> r.env.calls[|s.env.calls|].UpdateRequest?)
              && r.env.sent == s.env.sent
              && r.storedCCR == Some(ccr) && r.storedEndUserId == Some(endUserId)
              && r.storedServiceIds == Some(ccr.msccs[0].serviceIds) && r.storedReservations == []
  {
    var armed := s.(env := s.env.(timers := s.env.timers + [now + TIMER_DELAY_MS]));
    if |ccr.msccs| == 0 then Send(armed, Cca(ccr, [], DIAMETER_MISSING_AVP))
    else
      var mscc := ccr.msccs[0];
      match mscc.requestedUnits
      case None => armed
      case Some(requestedUnits) =>
        var call :=
          if ccr.requestType == Update then
            UpdateRequest(ccr.sessionId, endUserId, requestedUnits, SumOctets(mscc.usedUnits), IntCast(ccr.requestNumber))
          else
            InitialRequest(ccr.sessionId, endUserId, requestedUnits);
        Suspend(armed, call, ccr, endUserId, requestedUnits, mscc.serviceIds)
  }

  // ---------------------------------------------------------------------------
  // Resume and timer

  /** The result code an arriving reservation outcome stands for. */
  function OutcomeCode(ur: UnitReservation): (code: ResultCode)
    ensures code == DIAMETER_SUCCESS <==> ur.success
    ensures !ur.success ==> code == GetResultCode(ur.errorKind)
  {
    if ur.success then DIAMETER_SUCCESS else GetResultCode(ur.errorKind)
  }

  /** `resumeOnCreditControlRequest`: append the outcome; once there are as many
      outcomes as the stored request has MSCCs, answer with the code of the
      outcome that just arrived. Without a stored request, or without an attached
      Ro activity to reply on, the source dereferences null: no answer. */
  function Resume(s: SbbState, ur: UnitReservation): (r: SbbState)
    ensures r.storedReservations == s.storedReservations + [ur]
    ensures r.storedCCR == s.storedCCR && r.env.calls == s.env.calls && r.env.timers == s.env.timers
    ensures s.env.sent <= r.env.sent && |r.env.sent| <= |s.env.sent| + 1
    ensures r.env.sent != s.env.sent <==>
              s.env.attached && s.storedCCR.Some? && |s.storedCCR.value.msccs| == |s.storedReservations| + 1
  {
    var appended := s.(storedReservations := s.storedReservations + [ur]);
    match s.storedCCR
    case None => appended
    case Some(req) =>
      if |req.msccs| == |appended.storedReservations| && s.env.attached then
        // getServerSessionActivityToReply detaches; the list is never empty here
        var answer := Cca(req, appended.storedReservations, OutcomeCode(ur));
        Detach(Send(appended, answer))
      else appended
  }

  /** `onTimerEvent`: detach from the activity and end it. The timer event is
      fired on the Ro activity, so it reaches the SBB only while it is attached;
      otherwise nothing happens. */
  function TimerFired(s: SbbState): (r: SbbState)
    ensures !r.env.attached
    ensures r.env.activityEnded <==> s.env.attached || s.env.activityEnded
    ensures r.env.sent == s.env.sent && r.env.calls == s.env.calls && r.env.timers == s.env.timers
    ensures r.storedCCR == s.storedCCR && r.storedReservations == s.storedReservations
    ensures !s.env.attached ==> r == s
  {
    if s.env.attached then s.(env := s.env.(attached := false, activityEnded := true)) else s
  }

  // ---------------------------------------------------------------------------
  // The SBB

  class ChargingServerSbb {
    var storedCCR: Option<Request>
    var storedEndUserId: Option<string>
    var storedRequestedUnits: Long
    var storedServiceIds: Option<seq<int>>
    var storedReservations: seq<UnitReservation>

    // the outside world: account manager, Ro session, timer facility, activity
    var dispatched: seq<ReservationCall>
    var sent: seq<Answer>
    var timers: seq<int>
    var attached: bool
    var activityEnded: bool

    ghost function State(): SbbState
      reads this
    {
      SbbState(storedCCR, storedEndUserId, storedRequestedUnits, storedServiceIds, storedReservations,
               Env(dispatched, sent, timers, attached, activityEnded))
    }

    constructor ()
      ensures State() == InitialState()
    {
      storedCCR := None;
      storedEndUserId := None;
      storedRequestedUnits := 0;
      storedServiceIds := None;
      storedReservations := [];
      dispatched := [];
      sent := [];
      timers := [];
      attached := true;
      activityEnded := false;
    }

    /** `onCreditControlRequest`. The source's loop over the MSCCs returns in its
        first iteration, so only the first MSCC is looked at. */
    method OnCreditControlRequest(ccr: Request, now: int)
      modifies this
      ensures State() == OnRequest(old(State()), ccr, now)
    {
      Deliver();
      HandleRequest(ccr, now);
    }

    /** The container's part: a detached entity is gone, so the request creates
        a fresh one. */
    method Deliver()
      modifies this
      ensures State() == Receiver(old(State()))
    {
      if !attached {
        storedCCR := None;
        storedEndUserId := None;
        storedRequestedUnits := 0;
        storedServiceIds := None;
        storedReservations := [];
        attached := true;
      }
    }

    method HandleRequest(ccr: Request, now: int)
      modifies this
      ensures State() == HandlerStep(old(State()), ccr, now)
    {
      var endUserId: Option<string> := None;
      if |ccr.subscriptionIds| > 0 {
        endUserId := ccr.subscriptionIds[0].data;
      }
      if endUserId.None? {
        var cca := CreateCca(ccr, [], DIAMETER_MISSING_AVP);
        sent := sent + [cca];
        attached := false;
        return;
      }
      var user := endUserId.value;

      match ccr.requestType
      case Initial =>
        InitialOrUpdateRequest(ccr, user, now);
      case Update =>
        InitialOrUpdateRequest(ccr, user, now);
      case Termination =>
        if |ccr.msccs| > 0 {
          var mscc := ccr.msccs[0];
          var requestedUnits: Long := if mscc.requestedUnits.Some? then mscc.requestedUnits.value else 0;
          var usedUnitsCount := SumUsedUnits(mscc.usedUnits);
          dispatched := dispatched + [TerminateRequest(ccr.sessionId, user, 0, usedUnitsCount, IntCast(ccr.requestNumber))];
          StorePending(ccr, user, requestedUnits, mscc.serviceIds);
          return;
        }
        var cca := CreateCca(ccr, [], DIAMETER_SUCCESS);
        sent := sent + [cca];
      case Event =>
        attached := false;
    }

    method InitialOrUpdateRequest(ccr: Request, user: string, now: int)
      requires ccr.requestType == Initial || ccr.requestType == Update
      modifies this
      ensures State() == InitialOrUpdate(old(State()), ccr, user, now)
    {
      timers := timers + [now + TIMER_DELAY_MS];
      if |ccr.msccs| > 0 {
        var mscc := ccr.msccs[0];
        if mscc.requestedUnits.None? {
          // NullPointerException, caught and logged by the handler
          return;
        }
        var requestedUnits := mscc.requestedUnits.value;
        if ccr.requestType == Update {
          var usedUnitsCount := SumUsedUnits(mscc.usedUnits);
          dispatched := dispatched + [UpdateRequest(ccr.sessionId, user, requestedUnits, usedUnitsCount, IntCast(ccr.requestNumber))];
        } else {
          dispatched := dispatched + [InitialRequest(ccr.sessionId, user, requestedUnits)];
        }
        StorePending(ccr, user, requestedUnits, mscc.serviceIds);
        return;
      }
      var cca := CreateCca(ccr, [], DIAMETER_MISSING_AVP);
      sent := sent + [cca];
    }

    method StorePending(ccr: Request, user: string, requestedUnits: Long, serviceIds: seq<int>)
      modifies this
      ensures storedCCR == Some(ccr) && storedEndUserId == Some(user)
      ensures storedRequestedUnits == requestedUnits && storedServiceIds == Some(serviceIds)
      ensures storedReservations == []
      ensures dispatched == old(dispatched) && sent == old(sent) && timers == old(timers)
      ensures attached == old(attached) && activityEnded == old(activityEnded)
    {
      storedCCR := Some(ccr);
      storedEndUserId := Some(user);
      storedRequestedUnits := requestedUnits;
      storedServiceIds := Some(serviceIds);
      storedReservations := [];
    }

    /** `resumeOnCreditControlRequest`, called back by the account manager. */
    method ResumeOnCreditControlRequest(ur: UnitReservation)
      modifies this
      ensures State() == Resume(old(State()), ur)
    {
      storedReservations := storedReservations + [ur];
      var resultCode := DIAMETER_SUCCESS;
      if !ur.success {
        resultCode := GetResultCode(ur.errorKind);
      }
      if storedCCR.None? {
        // NullPointerException: storedCCR is dereferenced
        return;
      }
      var req := storedCCR.value;
      if |req.msccs| == |storedReservations| {
        if !attached {
          // no Ro activity to reply on: createCCA dereferences null
          return;
        }
        attached := false;
        var cca := CreateCca(req, storedReservations, resultCode);
        sent := sent + [cca];
      }
    }

    /** `onTimerEvent`; the container delivers it only to an attached SBB. */
    method OnTimerEvent()
      modifies this
      ensures State() == TimerFired(old(State()))
    {
      if attached {
        attached := false;
        activityEnded := true;
      }
    }
  }
}
