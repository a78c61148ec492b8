/** Values exchanged with the Diameter Ro stack and the account manager, as the
    charging server sees them, plus the Java integer semantics they carry.
    The Diameter Credit-Control application is RFC 4006; result codes are those of
    section 7.1 of RFC 3588 and section 9.1 of RFC 4006. */
module Diameter {

  datatype Option<T> = None | Some(value: T)

  // ---------------------------------------------------------------------------
  // Java integer widths

  const MIN_LONG: int := -0x8000_0000_0000_0000
  const MAX_LONG: int := 0x7FFF_FFFF_FFFF_FFFF
  const TWO_TO_64: int := 0x1_0000_0000_0000_0000
  const TWO_TO_32: int := 0x1_0000_0000
  const TWO_TO_31: int := 0x8000_0000

  /** A Java `long`. */
  type Long = x: int | MIN_LONG <= x <= MAX_LONG

  /** A Java `int`. */
  type Int32 = x: int | -TWO_TO_31 <= x < TWO_TO_31

  /** A Diameter Unsigned32 value, as the stack hands it over in a `long`. */
  type Unsigned32 = x: int | 0 <= x < TWO_TO_32

  /** Java `long` addition: the exact sum reduced into the `long` range. */
  function WrapLong(x: int): (r: Long)
    ensures (x - r) % TWO_TO_64 == 0
    ensures MIN_LONG <= x <= MAX_LONG ==> r == x
  {
    var m := (x - MIN_LONG) % TWO_TO_64;
    assert x - MIN_LONG == TWO_TO_64 * ((x - MIN_LONG) / TWO_TO_64) + m;
    m + MIN_LONG
  }

  /** The Java cast `(int) n` of an Unsigned32 held in a `long`: the low 32 bits,
      read as a signed value. */
  function IntCast(n: Unsigned32): (r: Int32)
    ensures (n - r) % TWO_TO_32 == 0
    ensures n < TWO_TO_31 <==> r == n
    ensures r < 0 <==> n >= TWO_TO_31
  {
    if n < TWO_TO_31 then n else n - TWO_TO_32
  }

  // ---------------------------------------------------------------------------
  // Result codes

  type ResultCode = int

  const DIAMETER_SUCCESS: ResultCode := 2001
  const DIAMETER_UNABLE_TO_DELIVER: ResultCode := 3002
  const DIAMETER_END_USER_SERVICE_DENIED: ResultCode := 4010
  const DIAMETER_CREDIT_LIMIT_REACHED: ResultCode := 4012
  const DIAMETER_MISSING_AVP: ResultCode := 5005
  const DIAMETER_USER_UNKNOWN: ResultCode := 5030

  // ---------------------------------------------------------------------------
  // Credit-Control-Request

  /** CC-Request-Type (section 8.3 of RFC 4006). */
  datatype RequestType = Initial | Update | Termination | Event

  /** One Subscription-Id; its data may be absent even when the AVP is there. */
  datatype SubscriptionId = SubscriptionId(idType: int, data: Option<string>)

  /** One Multiple-Services-Credit-Control entry of a request. `requestedUnits`
      is the CC-Total-Octets of the Requested-Service-Unit, `None` when that AVP is
      absent; `usedUnits` holds the CC-Total-Octets of each Used-Service-Unit. */
  datatype Mscc = Mscc(
    ratingGroup: int,
    serviceIds: seq<int>,
    requestedUnits: Option<Long>,
    usedUnits: seq<Long>)

  /** A Ro Credit-Control-Request. An absent list of Subscription-Ids or of MSCCs
      is the empty sequence. */
  datatype Request = Request(
    sessionId: string,
    requestType: RequestType,
    requestNumber: Unsigned32,
    subscriptionIds: seq<SubscriptionId>,
    serviceContextId: Option<string>,
    msccs: seq<Mscc>)

  // ---------------------------------------------------------------------------
  // Credit-Control-Answer

  /** One Multiple-Services-Credit-Control entry of an answer; `granted` is the
      CC-Total-Octets of the Granted-Service-Unit, `None` when there is none. */
  datatype AnswerMscc = AnswerMscc(
    ratingGroup: int,
    serviceIds: seq<int>,
    granted: Option<Long>,
    resultCode: ResultCode,
    validityTime: int)

  /** A Ro Credit-Control-Answer, reduced to the fields the server sets. */
  datatype Answer = Answer(
    sessionId: string,
    resultCode: ResultCode,
    requestType: RequestType,
    requestNumber: Unsigned32,
    msccs: seq<AnswerMscc>)

  // ---------------------------------------------------------------------------
  // The account manager's side

  /** The reasons the account manager gives for refusing a reservation. */
  datatype ErrorKind =
    | InvalidUser
    | BadRoamingCountry
    | NoServiceForUser
    | NotEnoughBalance
    | InvalidContent
    | MalformedRequest
    | AccountingConnectionErr

  /** The outcome of one reservation: granted units, or the reason for refusal. */
  datatype UnitReservation = UnitReservation(success: bool, units: Long, errorKind: ErrorKind)

  /** An asynchronous call into the account manager; the manager answers each
      with exactly one UnitReservation through the resume callback. */
  datatype ReservationCall =
    | InitialRequest(sessionId: string, endUserId: string, requestedUnits: Long)
    | UpdateRequest(sessionId: string, endUserId: string, requestedUnits: Long, usedUnits: Long, requestNumber: Int32)
    | TerminateRequest(sessionId: string, endUserId: string, requestedUnits: Long, usedUnits: Long, requestNumber: Int32)
}
