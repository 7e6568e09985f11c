/** The gRPC servicer's `Call`: decode the request's parameters, dispatch on
    the method name inside a try block that turns any exception into a
    three-string error report, and encode the result list into the reply. */
module Server {
  import opened Wrappers
  import opened Python
  import opened Codecs
  import opened Helper
  import opened Methods

  /** A `CallRequest`: the method name, the hex-encoded program and the parameters. */
  datatype CallRequest = CallRequest(methodName: string, code: seq<byte>, params: map<string, Any>)

  /** A `CallResponse`: the encoded result list. */
  datatype CallResponse = CallResponse(result: seq<Any>)

  /** An exception caught by Call, with the line of server.py it passed through. */
  datatype Failure = Failure(exc: Exception, line: nat)

  const SERVER_FILE: string := "server.py"
  const UTF8_DECODE_ERROR := Exception("UnicodeDecodeError", "'utf-8' codec can't decode the code")

  /** Lines of server.py at which the try block's calls sit. */
  const DECODE_LINE: nat := 22
  const UNHEXLIFY_LINE: nat := 23
  const CAIRO_RUN_LINE: nat := 24
  const STARKNET_RUN_LINE: nat := 26

  /** The except branch's result: the exception's text, the file and the line. */
  function ErrorResult(f: Failure): (r: seq<PyValue>)
    ensures |r| == 3 && forall k :: 0 <= k < 3 ==> r[k].PStr?
  {
    [PStr("Error: " + f.exc.message), PStr("File: " + SERVER_FILE), PStr("Line " + NatToString(f.line))]
  }

  predicate AllAscii(code: seq<byte>) {
    forall k :: 0 <= k < |code| ==> code[k] < 0x80
  }

  /** `binascii.unhexlify(request.code.decode("utf-8"))`. Text decoded from
      valid UTF-8 holds a character beyond ASCII exactly when a byte is 0x80 or
      more, and unhexlify refuses such text before looking at it further. */
  function DecodeCode(code: seq<byte>): (r: Result<seq<byte>, Failure>)
    ensures r.Err? && !ValidUtf8(code) ==> r.error == Failure(UTF8_DECODE_ERROR, DECODE_LINE)
    ensures r.Err? && ValidUtf8(code) ==> r.error.line == UNHEXLIFY_LINE
    ensures r.Ok? ==> ValidUtf8(code) && AllAscii(code) && 2 * |r.value| == |code|
  {
    if !ValidUtf8(code) then Err(Failure(UTF8_DECODE_ERROR, DECODE_LINE))
    else if !AllAscii(code) then Err(Failure(NON_ASCII_ERROR, UNHEXLIFY_LINE))
    else match Unhexlify(AsciiText(code))
      case Err(e) => Err(Failure(e, UNHEXLIFY_LINE))
      case Ok(program) => Ok(program)
  }

  /** The try block: the result of the named method, or the exception it raised. */
  function TryBody<P>(vm: CairoVm<P>, sn: Starknet, methodName: string, code: seq<byte>, params: map<string, Scalar>): Result<seq<PyValue>, Failure> {
    if methodName == "cairo_run" then
      var program :- DecodeCode(code);
      match CairoRun(vm, params, program)
      case Err(e) => Err(Failure(e, CAIRO_RUN_LINE))
      case Ok(values) => Ok(values)
    else if methodName == "starknet_run" then
      match StarknetRun(sn, params)
      case Err(e) => Err(Failure(e, STARKNET_RUN_LINE))
      case Ok(values) => Ok(values)
    else
      Ok([PStr("Error. Unknown method: " + methodName)])
  }

  /** The result list after the try/except. */
  function Dispatch<P>(vm: CairoVm<P>, sn: Starknet, request: CallRequest): seq<PyValue> {
    match TryBody(vm, sn, request.methodName, request.code, DecodedMap(request.params))
    case Ok(values) => values
    case Err(f) => ErrorResult(f)
  }

  /** The reply, or the encoding exception that escapes Call (encoding sits after the try). */
  function Reply<P>(vm: CairoVm<P>, sn: Starknet, request: CallRequest): Result<CallResponse, Exception> {
    var encoded :- EncodedArray(Dispatch(vm, sn, request));
    Ok(CallResponse(encoded))
  }

  /** `CairoServicer.Call(request, context)` */
  method Call<P>(vm: CairoVm<P>, sn: Starknet, request: CallRequest) returns (r: Result<CallResponse, Exception>)
    ensures r == Reply(vm, sn, request)
  {
    var params := DecodeGrpcAnyMap(request.params);
    var methodName := request.methodName;
    var result: seq<PyValue>;
    if methodName == "cairo_run" {
      var code := DecodeCode(request.code);
      if code.Err? {
        result := ErrorResult(code.error);
      } else {
        var values := CallCairoRun(vm, params, code.value);
        result := if values.Ok? then values.value else ErrorResult(Failure(values.error, CAIRO_RUN_LINE));
      }
    } else if methodName == "starknet_run" {
      var values := CallStarknetRun(sn, params);
      result := if values.Ok? then values.value else ErrorResult(Failure(values.error, STARKNET_RUN_LINE));
    } else {
      result := [PStr("Error. Unknown method: " + methodName)];
    }
    var encoded :- EncodeGrpcAnyArray(result);
    return Ok(CallResponse(encoded));
  }

  /** An unknown method is answered with one string, whatever the backends. */
  lemma UnknownMethodReply<P>(vm: CairoVm<P>, sn: Starknet, request: CallRequest)
    requires request.methodName != "cairo_run" && request.methodName != "starknet_run"
    ensures Reply(vm, sn, request) == Ok(CallResponse([StringAny("Error. Unknown method: " + request.methodName)]))
  {
    var text := "Error. Unknown method: " + request.methodName;
    assert StrList([text]) == [PStr(text)];
    EncodeStrings([text]);
    assert EncodedArray(StrList([text])).value == [StringAny(text)];
  }

  /** An exception inside the try never escapes: the reply is the three-string report. */
  lemma CaughtFailureReply<P>(vm: CairoVm<P>, sn: Starknet, request: CallRequest)
    requires TryBody(vm, sn, request.methodName, request.code, DecodedMap(request.params)).Err?
    ensures var f := TryBody(vm, sn, request.methodName, request.code, DecodedMap(request.params)).error;
            Reply(vm, sn, request) == Ok(CallResponse([
              StringAny("Error: " + f.exc.message),
              StringAny("File: " + SERVER_FILE),
              StringAny("Line " + NatToString(f.line))]))
  {
    var f := TryBody(vm, sn, request.methodName, request.code, DecodedMap(request.params)).error;
    var texts := ["Error: " + f.exc.message, "File: " + SERVER_FILE, "Line " + NatToString(f.line)];
    assert StrList(texts) == ErrorResult(f);
    EncodeStrings(texts);
    assert EncodedArray(StrList(texts)).value == [StringAny(texts[0]), StringAny(texts[1]), StringAny(texts[2])];
  }

  /** Call fails only when the method's own result holds a value that does
      not encode; otherwise the reply has one element per result value. */
  lemma ReplyFailsOnlyOnEncoding<P>(vm: CairoVm<P>, sn: Starknet, request: CallRequest)
    ensures Reply(vm, sn, request).Err? ==>
              var body := TryBody(vm, sn, request.methodName, request.code, DecodedMap(request.params));
              body.Ok? && exists k :: 0 <= k < |body.value| && !Encodable(body.value[k])
    ensures Reply(vm, sn, request).Ok? ==> |Reply(vm, sn, request).value.result| == |Dispatch(vm, sn, request)|
  {
    var body := TryBody(vm, sn, request.methodName, request.code, DecodedMap(request.params));
    if body.Err? {
      CaughtFailureReply(vm, sn, request);
    }
  }

  /** The bytes of an ASCII string. */
  function AsciiBytes(s: string): (b: seq<byte>)
    requires IsAscii(s)
    ensures |b| == |s| && AllAscii(b)
    ensures AsciiText(b) == s
  {
    seq(|s|, k requires 0 <= k < |s| => s[k] as int as byte)
  }

  /** A program sent as its hexlified bytes reaches call_cairo_run unchanged. */
  lemma HexlifiedCodeDecodes(program: seq<byte>)
    ensures IsAscii(Hexlify(program))
    ensures DecodeCode(AsciiBytes(Hexlify(program))) == Ok(program)
  {
    HexlifyIsAscii(program);
    var code := AsciiBytes(Hexlify(program));
    AsciiIsValidUtf8(code);
    UnhexlifyHexlify(program);
  }

  /** A cairo_run request with hexlified code is answered with the run's
      output values, or with the error report of line 24. */
  lemma CairoRunDispatch<P>(vm: CairoVm<P>, sn: Starknet, program: seq<byte>, params: map<string, Any>)
    ensures IsAscii(Hexlify(program))
    ensures var request := CallRequest("cairo_run", AsciiBytes(Hexlify(program)), params);
            var run := CairoRun(vm, DecodedMap(params), program);
            Dispatch(vm, sn, request) == if run.Ok? then run.value else ErrorResult(Failure(run.error, CAIRO_RUN_LINE))
  {
    HexlifiedCodeDecodes(program);
  }

  /** A starknet_run request is answered with the encoded result of
      call_starknet_run on the decoded parameters, or, when that raises, with
      the error report of line 26. */
  lemma StarknetRunDispatch<P>(vm: CairoVm<P>, sn: Starknet, code: seq<byte>, params: map<string, Any>)
    ensures var request := CallRequest("starknet_run", code, params);
            var run := StarknetRun(sn, DecodedMap(params));
            && (run.Ok? ==> Reply(vm, sn, request) == (var encoded :- EncodedArray(run.value); Ok(CallResponse(encoded))))
            && (run.Err? ==> Reply(vm, sn, request) == Ok(CallResponse([
                  StringAny("Error: " + run.error.message),
                  StringAny("File: " + SERVER_FILE),
                  StringAny("Line " + NatToString(STARKNET_RUN_LINE))])))
  {
    var request := CallRequest("starknet_run", code, params);
    if StarknetRun(sn, DecodedMap(params)).Err? {
      CaughtFailureReply(vm, sn, request);
    }
  }
}
