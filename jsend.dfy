/** The JSON envelope every guest API action answers with, following the
    JSend convention (status "success", "fail" or "error"). Unlike plain
    JSend, any status may carry a main message and a numeric code. */
module JSend {
  import opened Php

  const SUCCESS := "success"
  const FAIL := "fail"
  const ERROR := "error"

  const HTTP_BAD_REQUEST := 400
  const HTTP_UNAUTHORIZED := 401
  const HTTP_FORBIDDEN := 403
  const HTTP_INTERNAL_ERROR := 500

  const DEFAULT_FAIL_MESSAGE := "Check your input for invalid data."
  const DEFAULT_ERROR_MESSAGE := "An internal error has occurred."

  datatype Status = Success | Fail | Error

  function StatusName(s: Status): string
  {
    match s
    case Success => SUCCESS
    case Fail => FAIL
    case Error => ERROR
  }

  /** A JSON value, enough for the payloads of the guest actions. */
  datatype Value = Str(s: string) | Int(i: int) | Bool(b: bool) | Null | Obj(fields: map<string, Value>)

  type Data = map<string, Value>

  /** The `data` member of the envelope: left out, JSON null, or an object. */
  datatype DataField = Absent | NullData | Present(d: Data)

  datatype Envelope = Envelope(status: string, data: DataField, message: Option<string>, code: Option<int>)

  /** The JSON model and the HTTP status set on the response (None leaves
      the framework's default in place). */
  datatype Response = Response(json: Envelope, httpStatus: Option<int>)

  /** What a call to jSend with an unknown status produces. */
  datatype Outcome = Ok(response: Response) | Thrown(reason: string)

  /** PHP truthiness of a nullable array: null and [] are falsy. */
  predicate HasData(data: Option<Data>)
  {
    data.Some? && data.value != map[]
  }

  /** The envelope for one of the three statuses. `flashed` stands for the
      error messages already queued in the messenger, joined by newlines. */
  function Respond(status: Status, data: Option<Data>, message: Option<string>,
                   httpStatus: Option<int>, code: Option<int>, flashed: string): (r: Response)
    ensures r.json.status == StatusName(status)
    ensures r.json.code == code
    // success: data is passed through as given and there is no default code
    ensures status == Success ==>
              && r.json.data == (if data.Some? then Present(data.value) else NullData)
              && r.json.message == (if message.Some? && message.value != "" then message else None)
              && r.httpStatus == (if httpStatus.Some? && httpStatus.value != 0 then httpStatus else None)
    // fail: data is never empty; without data the message stands in under 'fail'
    ensures status == Fail ==>
              && r.json.data.Present? && r.json.data.d != map[]
              && (HasData(data) ==> r.json.data.d == data.value
                                    && r.json.message == (if message.Some? && message.value != "" then message else None))
              && (!HasData(data) ==> r.json.message.Some?
                                     && Truthy(r.json.message.value)
                                     // `$message ?: flashed errors ?: default`
                                     && r.json.message == Some(Elvis(message, Elvis(Some(flashed), DEFAULT_FAIL_MESSAGE)))
                                     && r.json.data.d == map["fail" := Str(r.json.message.value)])
              && (httpStatus.None? ==> r.httpStatus == Some(HTTP_BAD_REQUEST))
    // error: always a message, data only when there is some
    ensures status == Error ==>
              && r.json.message.Some? && Truthy(r.json.message.value)
              && r.json.message == Some(Elvis(message, Elvis(Some(flashed), DEFAULT_ERROR_MESSAGE)))
              && (r.json.data.Present? <==> HasData(data))
              && r.json.data == (if HasData(data) then Present(data.value) else Absent)
              && (httpStatus.None? ==> r.httpStatus == Some(HTTP_INTERNAL_ERROR))
    ensures httpStatus.Some? && httpStatus.value != 0 ==> r.httpStatus == httpStatus
  {
    var keep := if message.Some? && message.value != "" then message else None;
    match status
    case Success =>
      Response(Envelope(SUCCESS, if data.Some? then Present(data.value) else NullData, keep, code),
               if httpStatus.Some? && httpStatus.value != 0 then httpStatus else None)
    case Fail =>
      var http := if httpStatus.Some? then httpStatus.value else HTTP_BAD_REQUEST;
      var httpSet := if http != 0 then Some(http) else None;
      if HasData(data) then
        Response(Envelope(FAIL, Present(data.value), keep, code), httpSet)
      else
        var m := Elvis(message, Elvis(Some(flashed), DEFAULT_FAIL_MESSAGE));
        var d := map["fail" := Str(m)];
        assert "fail" in d;
        Response(Envelope(FAIL, Present(d), Some(m), code), httpSet)
    case Error =>
      var http := if httpStatus.Some? then httpStatus.value else HTTP_INTERNAL_ERROR;
      var m := Elvis(message, Elvis(Some(flashed), DEFAULT_ERROR_MESSAGE));
      Response(Envelope(ERROR, if HasData(data) then Present(data.value) else Absent, Some(m), code),
               if http != 0 then Some(http) else None)
  }

  /** jSend as called with a status string: the three known statuses build
      the envelope, any other status throws. */
  function JSend(status: string, data: Option<Data>, message: Option<string>,
                 httpStatus: Option<int>, code: Option<int>, flashed: string): (r: Outcome)
    ensures r.Ok? <==> status in {SUCCESS, FAIL, ERROR}
    ensures r.Ok? ==> r.response.json.status == status
    ensures status == SUCCESS ==> r == Ok(Respond(Success, data, message, httpStatus, code, flashed))
    ensures status == FAIL ==> r == Ok(Respond(Fail, data, message, httpStatus, code, flashed))
    ensures status == ERROR ==> r == Ok(Respond(Error, data, message, httpStatus, code, flashed))
    ensures r.Thrown? ==> r.reason == "The status \"" + status + "\" is not supported by jSend."
  {
    if status == SUCCESS then Ok(Respond(Success, data, message, httpStatus, code, flashed))
    else if status == FAIL then Ok(Respond(Fail, data, message, httpStatus, code, flashed))
    else if status == ERROR then Ok(Respond(Error, data, message, httpStatus, code, flashed))
    else Thrown("The status \"" + status + "\" is not supported by jSend.")
  }

  /** The shape the guest actions use most: a fail whose data maps one
      field to one message. */
  function FailOn(field: string, message: string, flashed: string): (r: Response)
    ensures r.json.status == FAIL && r.httpStatus == Some(HTTP_BAD_REQUEST)
    ensures r.json.data == Present(map[field := Str(message)])
  {
    var d := map[field := Str(message)];
    assert field in d;
    Respond(Fail, Some(d), None, None, None, flashed)
  }

  /** A fail with one field and an explicit HTTP status (401, 403). */
  function FailWithStatus(field: string, message: string, httpStatus: int, flashed: string): (r: Response)
    requires httpStatus != 0
    ensures r.json.status == FAIL && r.httpStatus == Some(httpStatus)
    ensures r.json.data == Present(map[field := Str(message)])
  {
    var d := map[field := Str(message)];
    assert field in d;
    Respond(Fail, Some(d), None, Some(httpStatus), None, flashed)
  }

  /** An error carrying only a message. */
  function ErrorWith(message: string, flashed: string): (r: Response)
    requires Truthy(message)
    ensures r.json == Envelope(ERROR, Absent, Some(message), None)
    ensures r.httpStatus == Some(HTTP_INTERNAL_ERROR)
  {
    Respond(Error, None, Some(message), None, None, flashed)
  }

  /** A success with data and an optional message. */
  function SucceedWith(data: Data, message: Option<string>, flashed: string): (r: Response)
    ensures r.json.status == SUCCESS && r.json.data == Present(data)
    ensures r.httpStatus == None
  {
    Respond(Success, Some(data), message, None, None, flashed)
  }

  /** The envelope as a JSON value, for an envelope nested in another. */
  function ToValue(e: Envelope): (v: Value)
    ensures v.Obj? && "status" in v.fields && v.fields["status"] == Str(e.status)
    ensures e.data.Present? ==> "data" in v.fields && v.fields["data"] == Obj(e.data.d)
    ensures "message" in v.fields <==> e.message.Some?
  {
    var base := map["status" := Str(e.status)];
    var withData := match e.data
      case Absent => base
      case NullData => base["data" := Null]
      case Present(d) => base["data" := Obj(d)];
    var withMessage := if e.message.Some? then withData["message" := Str(e.message.value)] else withData;
    Obj(if e.code.Some? then withMessage["code" := Int(e.code.value)] else withMessage)
  }
}
