/** The task-3 endpoint: a request envelope carrying a task version and optional data, which
    is either a door-code guess or a request for book hints. The handler answers with the
    same version and the data's own response. */
module Task3 {
  import opened Wrappers
  import opened Task3HintGenerator

  /** The two kinds of request data. */
  datatype RequestData =
    | DoorCodeRequest(code: string)
    | BookHintRequest(count: Int32)

  /** The two kinds of response data. */
  datatype ResponseData =
    | DoorCodeResponse(isCorrect: bool)
    | BookHintResponse(hints: seq<string>)

  /** `Task3EndpointHandler<T>`: a task version and data that may be null. */
  datatype Envelope<T> = Envelope(taskVersion: Int32, data: Option<T>)

  /** A freshly constructed door-code request, whose code is empty. */
  const DefaultDoorCodeRequest: RequestData := DoorCodeRequest("")

  /** `CheckCode`: the guess is right exactly when it is the version's door code; the code
      lookup throws for the one version whose absolute value overflows. */
  function CheckCode(code: string, taskVersion: Int32): (r: Result<bool, Error>)
    ensures r.Err? <==> taskVersion == MinInt32
    ensures r.Ok? ==> (r.value <==> code == GetDoorCode(taskVersion).value)
  {
    match GetDoorCode(taskVersion)
    case Err(e) => Err(e)
    case Ok(door) => Ok(code == door)
  }

  /** The data's own `GetResponse(taskVersion)`. */
  function DataResponse(data: RequestData, taskVersion: Int32, rng: Rng): (r: Result<ResponseData, Error>)
    requires InRange(rng)
    ensures data.DoorCodeRequest? && r.Ok? ==> r.value.DoorCodeResponse?
    ensures data.BookHintRequest? && r.Ok? ==> r.value.BookHintResponse?
  {
    match data
    case DoorCodeRequest(code) =>
      (match CheckCode(code, taskVersion)
       case Err(e) => Err(e)
       case Ok(b) => Ok(DoorCodeResponse(b)))
    case BookHintRequest(count) =>
      (match Hints(taskVersion, count, rng)
       case Err(e) => Err(e)
       case Ok(hs) => Ok(BookHintResponse(hs)))
  }

  /** `Task3EndpointHandler.GetResponse`: a new envelope with the same version, and the data's
      response when there is data. The source asks the data for its response twice (once to
      test it for null, once to keep it); the hint generator reseeds its random source from
      the version on each call, so both calls give the same answer and one is modelled. */
  function GetResponse(req: Envelope<RequestData>, rng: Rng): (r: Result<Envelope<ResponseData>, Error>)
    requires InRange(rng)
    ensures r.Ok? ==> r.value.taskVersion == req.taskVersion
    ensures req.data.None? ==> r == Ok(Envelope(req.taskVersion, None))
  {
    match req.data
    case None => Ok(Envelope(req.taskVersion, None))
    case Some(d) =>
      match DataResponse(d, req.taskVersion, rng)
      case Err(e) => Err(e)
      case Ok(resp) => Ok(Envelope(req.taskVersion, Some(resp)))
  }

  /** The empty default code is never accepted: every door code has at least three digits. */
  lemma DefaultCodeNeverCorrect(taskVersion: Int32)
    requires taskVersion != MinInt32
    ensures CheckCode(DefaultDoorCodeRequest.code, taskVersion) == Ok(false)
  {
  }

  /** Version 1 opens with "1221", so the guess "123" is rejected. */
  lemma VersionOneCode()
    ensures GetDoorCode(1) == Ok("1221")
    ensures CheckCode("1221", 1) == Ok(true)
    ensures CheckCode("123", 1) == Ok(false)
  {
    assert "123" != "1221" by { assert |"123"| != |"1221"|; }
  }

  /** A door-code request is answered with the check of its code against the version's door. */
  lemma DoorCodeResponseIsCheck(v: Int32, code: string, rng: Rng)
    requires InRange(rng) && v != MinInt32
    ensures GetResponse(Envelope(v, Some(DoorCodeRequest(code))), rng)
      == Ok(Envelope(v, Some(DoorCodeResponse(code == GetDoorCode(v).value))))
  {
  }

  /** A book-hint request with a non-negative count is answered with exactly `count` hints,
      those of the generator. */
  lemma BookHintResponseCount(v: Int32, count: Int32, rng: Rng)
    requires InRange(rng) && v != MinInt32 && count >= 0
    ensures var r := GetResponse(Envelope(v, Some(BookHintRequest(count))), rng);
      r.Ok? && r.value.data.Some? && r.value.data.value.BookHintResponse? &&
      r.value.data.value.hints == Hints(v, count, rng).value &&
      |r.value.data.value.hints| == count
  {
    HintsCount(v, count, rng);
  }
}
