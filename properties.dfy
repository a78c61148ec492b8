/** What the charging server's handlers guarantee over one request and over any
    sequence of resume callbacks that follows it. */
module SessionProperties {
  import opened Diameter
  import opened Answers
  import opened Session

  // ---------------------------------------------------------------------------
  // Used-unit sums

  /** Non-negative octet counts whose exact total fits in a `long` are summed
      exactly: the used-units argument is then the true total. */
  lemma {:induction false} SumOctetsExact(used: seq<Long>)
    requires forall i :: 0 <= i < |used| ==> used[i] >= 0
    requires TotalOctets(used) <= MAX_LONG
    ensures SumOctets(used) == TotalOctets(used)
    ensures SumOctets(used) >= 0
  {
    if used != [] {
      var init := used[..|used| - 1];
      assert forall i :: 0 <= i < |init| ==> init[i] == used[i];
      TotalOctetsNonNegative(init);
      SumOctetsExact(init);
    }
  }

  lemma {:induction false} TotalOctetsNonNegative(used: seq<Long>)
    requires forall i :: 0 <= i < |used| ==> used[i] >= 0
    ensures TotalOctets(used) >= 0
  {
    if used != [] {
      var init := used[..|used| - 1];
      assert forall i :: 0 <= i < |init| ==> init[i] == used[i];
      TotalOctetsNonNegative(init);
    }
  }

  // ---------------------------------------------------------------------------
  // One request

  /** A request without a readable Subscription-Id is answered once with
      DIAMETER_MISSING_AVP and no MSCCs; nothing is dispatched or stored, no
      timer is armed, and the receiving SBB detaches. */
  lemma RejectsUnreadableSubscriber(s: SbbState, ccr: Request, now: int)
    requires EndUserId(ccr).None?
    ensures var r := OnRequest(s, ccr, now);
      && r.env.sent == s.env.sent + [Cca(ccr, [], DIAMETER_MISSING_AVP)]
      && r.env.sent[|s.env.sent|].resultCode == DIAMETER_MISSING_AVP
      && r.env.sent[|s.env.sent|].msccs == []
      && r.env.calls == s.env.calls && r.env.timers == s.env.timers
      && !r.env.attached
      && r.storedCCR == Receiver(s).storedCCR && r.storedReservations == Receiver(s).storedReservations
  {
  }

  /** An Initial or Update request arms one 15 s timer and, if its first MSCC has
      a Requested-Service-Unit, dispatches exactly one reservation call for that
      MSCC (for Update with the `long` sum of its used octets and the request
      number cast to `int`), stores the request and empties the outcomes. */
  lemma InitialOrUpdateDispatchesFirst(s: SbbState, ccr: Request, now: int)
    requires EndUserId(ccr).Some?
    requires ccr.requestType == Initial || ccr.requestType == Update
    requires |ccr.msccs| > 0 && ccr.msccs[0].requestedUnits.Some?
    ensures var r := OnRequest(s, ccr, now);
      var m := ccr.msccs[0];
      var user := EndUserId(ccr).value;
      && r.env.timers == s.env.timers + [now + TIMER_DELAY_MS]
      && r.env.calls == s.env.calls + [
           if ccr.requestType == Update then
             UpdateRequest(ccr.sessionId, user, m.requestedUnits.value, SumOctets(m.usedUnits), IntCast(ccr.requestNumber))
           else
             InitialRequest(ccr.sessionId, user, m.requestedUnits.value)]
      && r.env.sent == s.env.sent && r.env.attached
      && r.storedCCR == Some(ccr) && r.storedEndUserId == Some(user)
      && r.storedRequestedUnits == m.requestedUnits.value && r.storedServiceIds == Some(m.serviceIds)
      && r.storedReservations == []
  {
  }

  /** A Termination request with MSCCs dispatches `terminateRequest` with zero
      requested units and the used octets of the first MSCC, arms no timer and
      sends no answer yet. */
  lemma TerminationDispatchesFirst(s: SbbState, ccr: Request, now: int)
    requires EndUserId(ccr).Some?
    requires ccr.requestType == Termination && |ccr.msccs| > 0
    ensures var r := OnRequest(s, ccr, now);
      var m := ccr.msccs[0];
      && r.env.calls == s.env.calls +
           [TerminateRequest(ccr.sessionId, EndUserId(ccr).value, 0, SumOctets(m.usedUnits), IntCast(ccr.requestNumber))]
      && r.env.sent == s.env.sent && r.env.timers == s.env.timers && r.env.attached
      && r.storedCCR == Some(ccr) && r.storedReservations == []
      && r.storedRequestedUnits == (if m.requestedUnits.Some? then m.requestedUnits.value else 0)
  {
  }

  /** A request with a subscriber but no MSCC is answered at once: Initial and
      Update with DIAMETER_MISSING_AVP, Termination with DIAMETER_SUCCESS; the
      receiving SBB stays attached and nothing is dispatched. */
  lemma NoMsccAnsweredAtOnce(s: SbbState, ccr: Request, now: int)
    requires EndUserId(ccr).Some? && |ccr.msccs| == 0 && ccr.requestType != Event
    ensures var r := OnRequest(s, ccr, now);
      && r.env.sent == s.env.sent +
           [Cca(ccr, [], if ccr.requestType == Termination then DIAMETER_SUCCESS else DIAMETER_MISSING_AVP)]
      && r.env.calls == s.env.calls && r.env.attached
  {
  }

  /** An Initial or Update request whose first MSCC has no Requested-Service-Unit
      only arms the timer: the exception is caught and nothing is answered. The
      receiving entity is otherwise left as it was. */
  lemma MissingRequestedUnitsOnlyArmsTimer(s: SbbState, ccr: Request, now: int)
    requires EndUserId(ccr).Some?
    requires ccr.requestType == Initial || ccr.requestType == Update
    requires |ccr.msccs| > 0 && ccr.msccs[0].requestedUnits.None?
    ensures var e := Receiver(s);
      OnRequest(s, ccr, now) == e.(env := e.env.(timers := e.env.timers + [now + TIMER_DELAY_MS]))
  {
  }

  /** An Event request with a subscriber only detaches the receiving entity. */
  lemma EventOnlyDetaches(s: SbbState, ccr: Request, now: int)
    requires EndUserId(ccr).Some? && ccr.requestType == Event
    ensures var e := Receiver(s);
      OnRequest(s, ccr, now) == e.(env := e.env.(attached := false))
  {
  }

  /** A missing or empty Service-Context-Id does not reject the request: the
      outside world sees the same effects whatever its value. */
  lemma ServiceContextIdIgnored(s: SbbState, ccr: Request, now: int, serviceContextId: Option<string>)
    ensures var r1 := OnRequest(s, ccr, now);
      var r2 := OnRequest(s, ccr.(serviceContextId := serviceContextId), now);
      && r1.env == r2.env
      && r1.storedReservations == r2.storedReservations
      && r1.storedEndUserId == r2.storedEndUserId
      && r1.storedRequestedUnits == r2.storedRequestedUnits
  {
  }

  // ---------------------------------------------------------------------------
  // Sequences of resume callbacks

  /** The state after the callbacks `urs`, in order. */
  function ResumeAll(s: SbbState, urs: seq<UnitReservation>): SbbState
    decreases |urs|
  {
    if urs == [] then s else ResumeAll(Resume(s, urs[0]), urs[1..])
  }

  /** Each callback appends exactly one outcome and dispatches nothing. */
  lemma {:induction false} ResumeAllAppends(s: SbbState, urs: seq<UnitReservation>)
    decreases |urs|
    ensures var t := ResumeAll(s, urs);
      && t.storedReservations == s.storedReservations + urs
      && t.storedCCR == s.storedCCR
      && t.env.calls == s.env.calls
      && t.env.timers == s.env.timers
  {
    if urs != [] {
      ResumeAllAppends(Resume(s, urs[0]), urs[1..]);
      assert s.storedReservations + [urs[0]] + urs[1..] == s.storedReservations + urs;
    }
  }

  /** A detached SBB never sends an answer from a callback. */
  lemma {:induction false} DetachedSendsNothing(s: SbbState, urs: seq<UnitReservation>)
    decreases |urs|
    requires !s.env.attached
    ensures ResumeAll(s, urs).env.sent == s.env.sent
    ensures !ResumeAll(s, urs).env.attached
  {
    if urs != [] {
      DetachedSendsNothing(Resume(s, urs[0]), urs[1..]);
    }
  }

  /** Once the liveness timer has fired, no callback ever produces an answer. */
  lemma TimerSilencesSession(s: SbbState, urs: seq<UnitReservation>)
    ensures ResumeAll(TimerFired(s), urs).env.sent == s.env.sent
  {
    DetachedSendsNothing(TimerFired(s), urs);
  }

  /** Over any sequence of callbacks the answer is sent at most once: exactly when
      the outcome count passes the stored request's MSCC count while the SBB is
      still attached. It pairs the first N outcomes with the request's N MSCCs and
      takes its overall code from the N-th outcome alone. */
  lemma {:induction false} AnswerSentOnce(s: SbbState, urs: seq<UnitReservation>)
    decreases |urs|
    ensures var t := ResumeAll(s, urs);
      var k := |s.storedReservations|;
      if s.storedCCR.Some? && s.env.attached && k < |s.storedCCR.value.msccs| <= k + |urs| then
        var n := |s.storedCCR.value.msccs|;
        t.env.sent == s.env.sent
          + [Cca(s.storedCCR.value, (s.storedReservations + urs)[..n], OutcomeCode(urs[n - k - 1]))]
      else
        t.env.sent == s.env.sent
  {
    if urs != [] {
      var s1 := Resume(s, urs[0]);
      var k := |s.storedReservations|;
      AnswerSentOnce(s1, urs[1..]);
      if s.storedCCR.Some? && s.env.attached && k + 1 == |s.storedCCR.value.msccs| {
        DetachedSendsNothing(s1, urs[1..]);
        assert (s.storedReservations + urs)[..k + 1] == s.storedReservations + [urs[0]];
      } else if s.storedCCR.Some? && s.env.attached && k + 1 < |s.storedCCR.value.msccs| <= k + |urs| {
        var n := |s.storedCCR.value.msccs|;
        assert s1.storedReservations + urs[1..] == s.storedReservations + urs;
        assert urs[1..][n - (k + 1) - 1] == urs[n - k - 1];
      }
    }
  }

  /** A dispatched request with N MSCCs is answered by the N-th callback and by no
      other; in particular, when N > 1 the single callback the handler asked for
      never produces an answer. This holds whether the request reached the
      session's entity or a fresh one. */
  lemma AnsweredOnlyByLastCallback(s: SbbState, ccr: Request, now: int, urs: seq<UnitReservation>)
    requires Dispatches(ccr)
    ensures var t := ResumeAll(OnRequest(s, ccr, now), urs);
      var n := |ccr.msccs|;
      if |urs| < n then t.env.sent == s.env.sent
      else t.env.sent == s.env.sent + [Cca(ccr, urs[..n], OutcomeCode(urs[n - 1]))]
  {
    AnsweredFromSuspended(OnRequest(s, ccr, now), ccr, urs);
  }

  /** The same, from any suspended state that holds `req` with no outcomes yet. */
  lemma AnsweredFromSuspended(r: SbbState, req: Request, urs: seq<UnitReservation>)
    requires r.storedCCR == Some(req) && |req.msccs| > 0
    requires r.storedReservations == [] && r.env.attached
    ensures var t := ResumeAll(r, urs);
      var n := |req.msccs|;
      if |urs| < n then t.env.sent == r.env.sent
      else t.env.sent == r.env.sent + [Cca(req, urs[..n], OutcomeCode(urs[n - 1]))]
  {
    AnswerSentOnce(r, urs);
    assert r.storedReservations + urs == urs;
  }

  /** With N > 1 MSCCs, the one reservation the handler dispatches cannot complete
      the request: no answer follows its callback. */
  lemma NoAnswerAfterSingleCallback(s: SbbState, ccr: Request, now: int, ur: UnitReservation)
    requires Dispatches(ccr) && |ccr.msccs| > 1
    ensures Resume(OnRequest(s, ccr, now), ur).env.sent == s.env.sent
  {
  }

  /** The one-MSCC exchange: dispatch, one callback, and the answer carries that
      outcome in its single MSCC; the SBB detaches from the session. */
  lemma SingleMsccRoundTrip(s: SbbState, ccr: Request, now: int, ur: UnitReservation)
    requires Dispatches(ccr) && |ccr.msccs| == 1
    ensures var t := Resume(OnRequest(s, ccr, now), ur);
      && t.env.sent == s.env.sent + [Cca(ccr, [ur], OutcomeCode(ur))]
      && |t.env.sent[|s.env.sent|].msccs| == 1
      && (t.env.sent[|s.env.sent|].resultCode == DIAMETER_SUCCESS <==> ur.success)
      && AnswersMscc(ccr.msccs[0], ur, t.env.sent[|s.env.sent|].msccs[0])
      && !t.env.attached
  {
    assert OnRequest(s, ccr, now).storedReservations + [ur] == [ur];
  }

  /** A callback that arrives once the answer is out changes no answer: it is
      appended and nothing is sent again. */
  lemma LateCallbackIgnored(s: SbbState, urs: seq<UnitReservation>)
    requires s.storedCCR.Some? && |s.storedReservations| >= |s.storedCCR.value.msccs|
    ensures ResumeAll(s, urs).env.sent == s.env.sent
  {
    AnswerSentOnce(s, urs);
  }

  // ---------------------------------------------------------------------------
  // A whole session

  /** One request of a session, the clock time it arrives at, and the outcome
      the account manager reports for its reservation. */
  datatype Exchange = Exchange(ccr: Request, now: int, outcome: UnitReservation)

  /** The state after one exchange: the request, then its callback. */
  function Exchanged(s: SbbState, x: Exchange): SbbState
  {
    Resume(OnRequest(s, x.ccr, x.now), x.outcome)
  }

  /** The state after each exchange in turn. */
  function RunSession(s: SbbState, xs: seq<Exchange>): SbbState
    decreases |xs|
  {
    if xs == [] then s else RunSession(Exchanged(s, xs[0]), xs[1..])
  }

  /** The answer a single-MSCC exchange should get: its one outcome, in one MSCC
      entry, with that outcome's code. */
  function ExchangeAnswer(x: Exchange): Answer
    requires |x.ccr.msccs| == 1
  {
    Cca(x.ccr, [x.outcome], OutcomeCode(x.outcome))
  }

  /** The answers a session of single-MSCC requests should get, one per request. */
  function SessionAnswers(xs: seq<Exchange>): seq<Answer>
    requires forall i :: 0 <= i < |xs| ==> |xs[i].ccr.msccs| == 1
    decreases |xs|
  {
    if xs == [] then [] else [ExchangeAnswer(xs[0])] + SessionAnswers(xs[1..])
  }

  /** One single-MSCC exchange adds exactly its answer, whatever state the
      session's entity was in. */
  lemma ExchangeAnswered(s: SbbState, x: Exchange)
    requires Dispatches(x.ccr) && |x.ccr.msccs| == 1
    ensures Exchanged(s, x).env.sent == s.env.sent + [ExchangeAnswer(x)]
  {
    SingleMsccRoundTrip(s, x.ccr, x.now, x.outcome);
  }

  /** The ordinary Ro flow (Initial, then Updates, then Termination), with one
      MSCC per request: every request is answered by its callback, in order.
      Sending an answer detaches the SBB, but the next request reaches a fresh
      entity, so the session goes on being answered. */
  lemma {:induction false} EveryRequestAnswered(s: SbbState, xs: seq<Exchange>)
    requires forall i :: 0 <= i < |xs| ==> Dispatches(xs[i].ccr) && |xs[i].ccr.msccs| == 1
    decreases |xs|
    ensures RunSession(s, xs).env.sent == s.env.sent + SessionAnswers(xs)
  {
    if xs != [] {
      var s1 := Exchanged(s, xs[0]);
      ExchangeAnswered(s, xs[0]);
      EveryRequestAnswered(s1, xs[1..]);
      AnswersPrepend(s.env.sent, xs);
    }
  }

  /** The bookkeeping step of the induction above, on sequences alone. */
  lemma AnswersPrepend(sent: seq<Answer>, xs: seq<Exchange>)
    requires xs != [] && forall i :: 0 <= i < |xs| ==> |xs[i].ccr.msccs| == 1
    ensures sent + [ExchangeAnswer(xs[0])] + SessionAnswers(xs[1..]) == sent + SessionAnswers(xs)
  {
    assert SessionAnswers(xs) == [ExchangeAnswer(xs[0])] + SessionAnswers(xs[1..]);
  }
}
