/** Result-code mapping and Credit-Control-Answer construction of the charging
    server (`getResultCode` and `createCCA`). The answer layout follows the
    Credit-Control-Answer grammar of section 3.2 of RFC 4006. */
module Answers {
  import opened Diameter

  /** Validity-Time put on every answered MSCC, in seconds. */
  const DEFAULT_VALIDITY_TIME: int := 86400

  /** The result code reported for a refused reservation. */
  function GetResultCode(kind: ErrorKind): (code: ResultCode)
    ensures code == DIAMETER_USER_UNKNOWN <==> kind == InvalidUser
    ensures code == DIAMETER_END_USER_SERVICE_DENIED <==> kind == BadRoamingCountry || kind == NoServiceForUser
    ensures code == DIAMETER_CREDIT_LIMIT_REACHED <==> kind == NotEnoughBalance
    ensures code == DIAMETER_UNABLE_TO_DELIVER <==>
              !(kind == InvalidUser || kind == BadRoamingCountry || kind == NoServiceForUser || kind == NotEnoughBalance)
    ensures code != DIAMETER_SUCCESS && code != DIAMETER_MISSING_AVP
  {
    match kind
    case InvalidUser => DIAMETER_USER_UNKNOWN
    case BadRoamingCountry => DIAMETER_END_USER_SERVICE_DENIED
    case NoServiceForUser => DIAMETER_END_USER_SERVICE_DENIED
    case NotEnoughBalance => DIAMETER_CREDIT_LIMIT_REACHED
    case _ => DIAMETER_UNABLE_TO_DELIVER
  }

  /** What an answered MSCC must carry for request entry `q` and reservation `ur`:
      the rating group and service ids of `q`, the validity time, and either the
      granted units with SUCCESS or no granted units with the mapped code. */
  ghost predicate AnswersMscc(q: Mscc, ur: UnitReservation, a: AnswerMscc)
  {
    && a.ratingGroup == q.ratingGroup
    && a.serviceIds == q.serviceIds
    && a.validityTime == DEFAULT_VALIDITY_TIME
    && (a.granted.Some? <==> ur.success)
    && (ur.success ==> a.granted == Some(ur.units) && a.resultCode == DIAMETER_SUCCESS)
    && (!ur.success ==> a.resultCode == GetResultCode(ur.errorKind))
  }

  /** The answered MSCC for one request entry and its reservation. */
  function AnswerEntry(q: Mscc, ur: UnitReservation): (a: AnswerMscc)
    ensures AnswersMscc(q, ur, a)
  {
    if ur.success then
      AnswerMscc(q.ratingGroup, q.serviceIds, Some(ur.units), DIAMETER_SUCCESS, DEFAULT_VALIDITY_TIME)
    else
      AnswerMscc(q.ratingGroup, q.serviceIds, None, GetResultCode(ur.errorKind), DEFAULT_VALIDITY_TIME)
  }

  /** The answer `createCCA` builds for `request`, pairing reservation i with the
      request's MSCC i; an empty list stands for both null and empty. The source
      indexes the request's MSCCs by the reservation index, hence the requires. */
  function Cca(request: Request, reservations: seq<UnitReservation>, resultCode: ResultCode): (answer: Answer)
    requires |reservations| <= |request.msccs|
    ensures answer.sessionId == request.sessionId
    ensures answer.resultCode == resultCode
    ensures answer.requestType == request.requestType
    ensures answer.requestNumber == request.requestNumber
    ensures |answer.msccs| == |reservations|
    ensures forall i :: 0 <= i < |reservations| ==> AnswersMscc(request.msccs[i], reservations[i], answer.msccs[i])
  {
    Answer(request.sessionId, resultCode, request.requestType, request.requestNumber,
           seq(|reservations|, i requires 0 <= i < |reservations| => AnswerEntry(request.msccs[i], reservations[i])))
  }

  /** `createCCA`: builds the answer's MSCC list in an index loop. */
  method CreateCca(request: Request, reservations: seq<UnitReservation>, resultCode: ResultCode)
    returns (answer: Answer)
    requires |reservations| <= |request.msccs|
    ensures answer == Cca(request, reservations, resultCode)
  {
    var ansMsccs: seq<AnswerMscc> := [];
    if |reservations| > 0 {
      var index := 0;
      while index < |reservations|
        invariant 0 <= index <= |reservations|
        invariant |ansMsccs| == index
        invariant forall i :: 0 <= i < index ==> ansMsccs[i] == AnswerEntry(request.msccs[i], reservations[i])
      {
        var reqMscc := request.msccs[index];
        var unitReservation := reservations[index];
        var ansMscc: AnswerMscc;
        if unitReservation.success {
          ansMscc := AnswerMscc(reqMscc.ratingGroup, reqMscc.serviceIds, Some(unitReservation.units),
                                DIAMETER_SUCCESS, DEFAULT_VALIDITY_TIME);
        } else {
          ansMscc := AnswerMscc(reqMscc.ratingGroup, reqMscc.serviceIds, None,
                                GetResultCode(unitReservation.errorKind), DEFAULT_VALIDITY_TIME);
        }
        ansMsccs := ansMsccs + [ansMscc];
        index := index + 1;
      }
    }
    answer := Answer(request.sessionId, resultCode, request.requestType, request.requestNumber, ansMsccs);
  }
}
