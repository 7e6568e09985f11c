/** The gRPC helper layer: the typed-value codec between Python values and
    protobuf `Any` containers, the InvokeParams record built from a decoded
    parameter map, the in-memory stand-in gateway and the client selection. */
module Helper {
  import opened Wrappers
  import opened Python

  // ---------------------------------------------------------------------------
  // The typed-value codec

  /** A protobuf `Any`: an Int32Value, a StringValue, or a message of any other type. */
  datatype Any = Int32Any(i: int) | StringAny(s: string) | OtherAny(typeUrl: string)

  const INT32_MIN: int := -0x8000_0000
  const INT32_MAX: int := 0x7fff_ffff

  predicate IsInt32(i: int) { INT32_MIN <= i <= INT32_MAX }

  /** The values `Int32Value(value=v)` or `StringValue(value=v)` accept: an int
      of 32 bits, a str, or None (a None keyword argument leaves the field unset). */
  predicate Encodable(v: PyValue) {
    match v
    case PInt(i) => IsInt32(i)
    case PStr(_) => true
    case PNone => true
    case _ => false
  }

  /** A decoded scalar that encodes without loss: every str, and ints of 32 bits. */
  predicate RoundTrips(v: Scalar) {
    v.Str? || IsInt32(v.i)
  }

  /** Packing one value: an int becomes an Int32Value, anything else a StringValue. */
  function Pack(v: PyValue): (r: Result<Any, Exception>)
    ensures r.Ok? <==> Encodable(v)
    ensures r.Ok? && v.PInt? ==> r.value == Int32Any(v.i)
    ensures r.Ok? && v.PStr? ==> r.value == StringAny(v.s)
    ensures r.Ok? && v.PNone? ==> r.value == StringAny("")
  {
    match v
    case PInt(i) =>
      if IsInt32(i) then Ok(Int32Any(i))
      else Err(Exception("ValueError", "Value out of range: " + IntToString(i)))
    case PStr(s) => Ok(StringAny(s))
    case PNone => Ok(StringAny(""))
    case _ => Err(Exception("TypeError", Repr(v) + " has type " + TypeName(v) + ", but expected one of: bytes, unicode"))
  }

  /** Unpacking one value: an Int32Value gives its int, a StringValue its str,
      and any other message fails to unpack. */
  function Unpack(a: Any): (r: Option<Scalar>)
    ensures r.None? <==> a.OtherAny?
  {
    match a
    case Int32Any(i) => Some(Int(i))
    case StringAny(s) => Some(Str(s))
    case OtherAny(_) => None
  }

  /** The array encoding: every element packed, in order, or the first packing error. */
  function EncodedArray(arr: seq<PyValue>): (r: Result<seq<Any>, Exception>)
    ensures r.Ok? <==> forall k :: 0 <= k < |arr| ==> Encodable(arr[k])
    ensures r.Ok? ==> |r.value| == |arr|
    ensures r.Ok? ==> forall k :: 0 <= k < |arr| ==> Pack(arr[k]) == Ok(r.value[k])
    ensures r.Err? ==> exists k :: 0 <= k < |arr| && Pack(arr[k]) == Err(r.error)
                                   && forall j :: 0 <= j < k ==> Encodable(arr[j])
  {
    if arr == [] then Ok([])
    else
      var head :- Pack(arr[0]);
      var tail :- EncodedArray(arr[1..]);
      assert forall k :: 1 <= k < |arr| ==> arr[k] == arr[1..][k - 1];
      Ok([head] + tail)
  }

  /** `encode_grpc_any_array`: packs each element into a fresh `Any` and appends it. */
  method EncodeGrpcAnyArray(arr: seq<PyValue>) returns (r: Result<seq<Any>, Exception>)
    ensures r == EncodedArray(arr)
    ensures r.Ok? ==> |r.value| == |arr|
    ensures r.Ok? ==> forall k :: 0 <= k < |arr| ==> Pack(arr[k]) == Ok(r.value[k])
  {
    var result: seq<Any> := [];
    for i := 0 to |arr|
      invariant |result| == i
      invariant forall k :: 0 <= k < i ==> Pack(arr[k]) == Ok(result[k])
    {
      var packed :- Pack(arr[i]);
      result := result + [packed];
    }
    var expected := EncodedArray(arr);
    assert expected.Ok?;
    assert forall k :: 0 <= k < |arr| ==> result[k] == expected.value[k];
    assert result == expected.value;
    return Ok(result);
  }

  /** The list of the given strs. */
  function StrList(xs: seq<string>): (r: seq<PyValue>)
    ensures |r| == |xs|
  {
    seq(|xs|, k requires 0 <= k < |xs| => PStr(xs[k]))
  }

  /** A list of strs encodes as StringValues of the same strings. */
  lemma EncodeStrings(xs: seq<string>)
    ensures EncodedArray(StrList(xs)) == Ok(seq(|xs|, k requires 0 <= k < |xs| => StringAny(xs[k])))
  {
    var enc := EncodedArray(StrList(xs));
    assert enc.Ok?;
    assert forall k :: 0 <= k < |xs| ==> enc.value[k] == StringAny(xs[k]);
    assert enc.value == seq(|xs|, k requires 0 <= k < |xs| => StringAny(xs[k]));
  }

  /** The map encoding of a map whose values all encode. */
  function PackedMap(m: map<string, PyValue>): (r: map<string, Any>)
    requires forall key :: key in m ==> Encodable(m[key])
    ensures r.Keys == m.Keys
  {
    map key | key in m :: Pack(m[key]).value
  }

  /** `encode_grpc_any_map`: packs the value of each key under the same key.
      Keys are visited in the dict's order, which the model leaves open: when
      several values fail to pack, the error is that of one of them. */
  method EncodeGrpcAnyMap(arr: map<string, PyValue>) returns (r: Result<map<string, Any>, Exception>)
    ensures r.Ok? <==> forall key :: key in arr ==> Encodable(arr[key])
    ensures r.Ok? ==> r.value.Keys == arr.Keys
    ensures r.Ok? ==> forall key :: key in arr ==> Pack(arr[key]) == Ok(r.value[key])
    ensures r.Ok? ==> r.value == PackedMap(arr)
    ensures r.Err? ==> exists key :: key in arr && Pack(arr[key]) == Err(r.error)
  {
    var result: map<string, Any> := map[];
    var remaining := arr.Keys;
    while remaining != {}
      invariant remaining <= arr.Keys
      invariant result.Keys == arr.Keys - remaining
      invariant forall key :: key in result ==> Pack(arr[key]) == Ok(result[key])
      decreases remaining
    {
      var key :| key in remaining;
      var packed :- Pack(arr[key]);
      result := result[key := packed];
      remaining := remaining - {key};
    }
    return Ok(result);
  }

  /** What an element contributes to a decoded array: its value, or nothing. */
  function Decoded(a: Any): seq<Scalar> {
    match Unpack(a)
    case Some(v) => [v]
    case None => []
  }

  /** The array decoding: the unpacked values of the elements that unpack, in order. */
  function DecodedArray(arr: seq<Any>): (r: seq<Scalar>)
    ensures |r| <= |arr|
  {
    if arr == [] then [] else Decoded(arr[0]) + DecodedArray(arr[1..])
  }

  lemma {:induction false} DecodedArrayAppend(arr: seq<Any>, a: Any)
    ensures DecodedArray(arr + [a]) == DecodedArray(arr) + Decoded(a)
  {
    if arr == [] {
      assert DecodedArray([a]) == Decoded(a) + DecodedArray([]);
    } else {
      assert (arr + [a])[1..] == arr[1..] + [a];
      DecodedArrayAppend(arr[1..], a);
    }
  }

  /** `decode_grpc_any_array`: appends the value of each element that unpacks
      and silently skips the others. */
  method DecodeGrpcAnyArray(arr: seq<Any>) returns (result: seq<Scalar>)
    ensures result == DecodedArray(arr)
    ensures |result| <= |arr|
  {
    result := [];
    for i := 0 to |arr|
      invariant result == DecodedArray(arr[..i])
    {
      var v := Unpack(arr[i]);
      if v.Some? {
        result := result + [v.value];
      }
      assert arr[..i + 1] == arr[..i] + [arr[i]];
      DecodedArrayAppend(arr[..i], arr[i]);
    }
    assert arr[..|arr|] == arr;
  }

  /** The map decoding: the keys whose value unpacks, each with its value. */
  function DecodedMap(m: map<string, Any>): (r: map<string, Scalar>)
    ensures r.Keys <= m.Keys
  {
    map key | key in m && Unpack(m[key]).Some? :: Unpack(m[key]).value
  }

  /** `decode_grpc_any_map`: keeps exactly the keys whose value unpacks. */
  method DecodeGrpcAnyMap(arr: map<string, Any>) returns (result: map<string, Scalar>)
    ensures result.Keys <= arr.Keys
    ensures forall key :: key in arr ==> (key in result <==> !arr[key].OtherAny?)
    ensures forall key :: key in result ==> Unpack(arr[key]) == Some(result[key])
    ensures result == DecodedMap(arr)
  {
    result := map[];
    var remaining := arr.Keys;
    while remaining != {}
      invariant remaining <= arr.Keys
      invariant result.Keys <= arr.Keys - remaining
      invariant forall key :: key in arr.Keys - remaining ==> (key in result <==> !arr[key].OtherAny?)
      invariant forall key :: key in result ==> Unpack(arr[key]) == Some(result[key])
      decreases remaining
    {
      var key :| key in remaining;
      var v := Unpack(arr[key]);
      if v.Some? {
        result := result[key := v.value];
      }
      remaining := remaining - {key};
    }
  }

  /** Skip law: an element that unpacks as neither wrapper vanishes from the
      decoding without disturbing its neighbours. */
  lemma {:induction false} DecodeSkipsOther(before: seq<Any>, url: string, after: seq<Any>)
    ensures DecodedArray(before + [OtherAny(url)] + after) == DecodedArray(before) + DecodedArray(after)
  {
    var s := before + [OtherAny(url)] + after;
    if before == [] {
      assert s == [OtherAny(url)] + after && s[1..] == after;
      assert DecodedArray(s) == Decoded(OtherAny(url)) + DecodedArray(after);
    } else {
      assert s[0] == before[0];
      assert s[1..] == before[1..] + [OtherAny(url)] + after;
      DecodeSkipsOther(before[1..], url, after);
      assert DecodedArray(s) == Decoded(before[0]) + (DecodedArray(before[1..]) + DecodedArray(after));
      assert DecodedArray(before) == Decoded(before[0]) + DecodedArray(before[1..]);
    }
  }

  /** An array without foreign messages decodes element for element. */
  lemma {:induction false} DecodeWithoutOther(arr: seq<Any>)
    requires forall k :: 0 <= k < |arr| ==> !arr[k].OtherAny?
    ensures |DecodedArray(arr)| == |arr|
    ensures forall k :: 0 <= k < |arr| ==> Unpack(arr[k]) == Some(DecodedArray(arr)[k])
  {
    if arr != [] {
      DecodeWithoutOther(arr[1..]);
      assert forall k :: 1 <= k < |arr| ==> arr[k] == arr[1..][k - 1];
    }
  }

  function ToPyValues(vs: seq<Scalar>): (r: seq<PyValue>)
    ensures |r| == |vs|
  {
    seq(|vs|, k requires 0 <= k < |vs| => vs[k].ToPy())
  }

  /** Round trip for arrays: decoding the encoding of strs and 32-bit ints gives them back. */
  lemma ArrayRoundTrip(vs: seq<Scalar>)
    requires forall k :: 0 <= k < |vs| ==> RoundTrips(vs[k])
    ensures EncodedArray(ToPyValues(vs)).Ok?
    ensures DecodedArray(EncodedArray(ToPyValues(vs)).value) == vs
  {
    var enc := EncodedArray(ToPyValues(vs));
    assert enc.Ok?;
    assert forall k :: 0 <= k < |vs| ==> Unpack(enc.value[k]) == Some(vs[k]);
    DecodeWithoutOther(enc.value);
  }

  /** Round trip for maps: the same key set and values come back. */
  lemma MapRoundTrip(m: map<string, Scalar>)
    requires forall key :: key in m ==> RoundTrips(m[key])
    ensures var py := map key | key in m :: m[key].ToPy();
            && (forall key :: key in py ==> Encodable(py[key]))
            && DecodedMap(PackedMap(py)) == m
  {
  }

  // ---------------------------------------------------------------------------
  // InvokeParams

  /** The attributes InvokeParams declares. */
  datatype Attr =
    | Inputs | Signature | Abi | Address | Function | BlockHash | BlockNumber
    | Type | GatewayUrl | FeederGatewayUrl | Command | Network | Testing

  /** The attribute's Python name. */
  function Name(a: Attr): string {
    match a
    case Inputs => "inputs"
    case Signature => "signature"
    case Abi => "abi"
    case Address => "address"
    case Function => "function"
    case BlockHash => "block_hash"
    case BlockNumber => "block_number"
    case Type => "type"
    case GatewayUrl => "gateway_url"
    case FeederGatewayUrl => "feeder_gateway_url"
    case Command => "command"
    case Network => "network"
    case Testing => "testing"
  }

  /** The attribute a name denotes, if InvokeParams declares it (`hasattr`). */
  function AttrNamed(key: string): (r: Option<Attr>)
    ensures r.Some? ==> Name(r.value) == key
    ensures r.None? ==> forall a :: Name(a) != key
  {
    if key == "inputs" then Some(Inputs)
    else if key == "signature" then Some(Signature)
    else if key == "abi" then Some(Abi)
    else if key == "address" then Some(Address)
    else if key == "function" then Some(Function)
    else if key == "block_hash" then Some(BlockHash)
    else if key == "block_number" then Some(BlockNumber)
    else if key == "type" then Some(Type)
    else if key == "gateway_url" then Some(GatewayUrl)
    else if key == "feeder_gateway_url" then Some(FeederGatewayUrl)
    else if key == "command" then Some(Command)
    else if key == "network" then Some(Network)
    else if key == "testing" then Some(Testing)
    else None
  }

  /** Distinct attributes have distinct names. */
  lemma NameInjective(a: Attr, b: Attr)
    ensures Name(a) == Name(b) ==> a == b
  {
    assert AttrNamed(Name(a)) == Some(a);
  }

  /** A map that holds every declared attribute. */
  predicate Complete(m: map<Attr, PyValue>) {
    forall a :: a in m
  }

  /** The class attribute's value, which an instance shows until `__init__`
      overrides it (the class-level `False` of `testing` is the int 0). */
  function Default(a: Attr): PyValue {
    match a
    case Inputs => PList([])
    case Signature => PList([])
    case Abi => PStr("")
    case Address => PStr("")
    case Function => PStr("")
    case BlockHash => PNone
    case BlockNumber => PNone
    case Type => PStr("call")
    case GatewayUrl => PNone
    case FeederGatewayUrl => PNone
    case Command => PStr("invoke")
    case Network => PNone
    case Testing => PInt(0)
  }

  /** The attributes of a fresh instance. */
  function ClassDefaults(): (m: map<Attr, PyValue>)
    ensures Complete(m)
  {
    map a: Attr | true :: Default(a)
  }

  /** The two attributes whose value is split on commas. */
  predicate IsListAttr(a: Attr) {
    a == Inputs || a == Signature
  }

  /** `value.split(",")`; an int has no `split`. */
  function SplitValue(v: Scalar): (r: Result<PyValue, Exception>)
    ensures r.Ok? <==> v.Str?
  {
    match v
    case Str(s) => Ok(PList(StrList(Split(s, ','))))
    case Int(i) => Err(NoAttribute(PInt(i), "split"))
  }

  /** `"'int' object has no attribute 'split'"`, the error of splitting an int. */
  const SPLIT_ERROR: Exception := NoAttribute(PInt(0), "split")

  /** The keys whose value is split. */
  predicate IsListKey(key: string) {
    key == "inputs" || key == "signature"
  }

  lemma ListKeyAttr(key: string)
    ensures IsListKey(key) <==> AttrNamed(key).Some? && IsListAttr(AttrNamed(key).value)
  {
  }

  /** Whether `inputs` or `signature` holds a value that cannot be split. */
  predicate HasUnsplittable(data: map<string, Scalar>) {
    || ("inputs" in data && data["inputs"].Int?)
    || ("signature" in data && data["signature"].Int?)
  }

  /** The attribute a key of the input sets: split for the list attributes, copied otherwise. */
  function NewAttribute(a: Attr, v: Scalar): PyValue
    requires IsListAttr(a) ==> v.Str?
  {
    if IsListAttr(a) then SplitValue(v).value else v.ToPy()
  }

  /** The attributes of `InvokeParams(data)`, or the exception its `__init__` raises. */
  function InvokeParamsFrom(data: map<string, Scalar>): (r: Result<map<Attr, PyValue>, Exception>)
    ensures r.Err? <==> HasUnsplittable(data)
    ensures r.Err? ==> r.error == SPLIT_ERROR
    ensures r.Ok? ==> Complete(r.value)
    ensures r.Ok? ==> forall a :: Name(a) !in data ==> r.value[a] == Default(a)
  {
    if HasUnsplittable(data) then Err(SPLIT_ERROR)
    else
      Ok(map a: Attr | true :: if Name(a) in data then NewAttribute(a, data[Name(a)]) else Default(a))
  }

  /** The parsed record: a key of the input that names an attribute sets it,
      copied, and `inputs`/`signature` are split into pieces that join back to
      the original string. */
  lemma InvokeParamsFields(data: map<string, Scalar>)
    requires !HasUnsplittable(data)
    ensures InvokeParamsFrom(data).Ok?
    ensures forall a :: Name(a) in data && !IsListAttr(a) ==> InvokeParamsFrom(data).value[a] == data[Name(a)].ToPy()
    ensures forall a :: Name(a) in data && IsListAttr(a) ==>
              && data[Name(a)].Str?
              && InvokeParamsFrom(data).value[a] == PList(StrList(Split(data[Name(a)].s, ',')))
              && Join(',', Split(data[Name(a)].s, ',')) == data[Name(a)].s
  {
    forall a | Name(a) in data && IsListAttr(a)
      ensures Join(',', Split(data[Name(a)].s, ',')) == data[Name(a)].s
    {
      JoinSplit(data[Name(a)].s, ',');
    }
  }

  /** Keys that name no attribute are ignored. */
  lemma {:induction false} InvokeParamsIgnoresUnknownKeys(data: map<string, Scalar>, key: string, v: Scalar)
    requires AttrNamed(key).None?
    ensures InvokeParamsFrom(data[key := v]) == InvokeParamsFrom(data)
  {
    var data' := data[key := v];
    assert forall a :: Name(a) in data' <==> Name(a) in data;
    assert forall a :: Name(a) in data ==> data'[Name(a)] == data[Name(a)];
    assert HasUnsplittable(data') == HasUnsplittable(data) by {
      assert Name(Inputs) != key && Name(Signature) != key;
    }
    if !HasUnsplittable(data) {
      var m', m := InvokeParamsFrom(data').value, InvokeParamsFrom(data).value;
      assert forall a :: m'[a] == m[a];
      assert m' == m;
    }
  }

  /** One attribute of the parsed record: copied from the input, or its default. */
  lemma AttributeOf(data: map<string, Scalar>, a: Attr)
    requires !HasUnsplittable(data) && !IsListAttr(a)
    ensures InvokeParamsFrom(data).Ok?
    ensures InvokeParamsFrom(data).value[a] == if Name(a) in data then data[Name(a)].ToPy() else Default(a)
  {
  }

  /** An InvokeParams instance: its declared attributes. */
  class InvokeParams {
    var attrs: map<Attr, PyValue>

    /** A fresh instance, before `__init__`: every attribute at its class default. */
    constructor()
      ensures attrs == ClassDefaults()
    {
      attrs := ClassDefaults();
    }

    /** `hasattr(self, key)` */
    predicate HasAttr(key: string)
      reads this
    {
      AttrNamed(key).Some? && AttrNamed(key).value in attrs
    }

    /** `self.__setattr__(name, value)` on a declared attribute. */
    method SetAttr(a: Attr, value: PyValue)
      requires a in attrs
      modifies this
      ensures attrs == old(attrs)[a := value]
    {
      attrs := attrs[a := value];
    }

    /** One round of `__init__`'s loop: `inputs` and `signature` are split,
        any other declared attribute is copied, and other keys are ignored. */
    method Assign(key: string, v: Scalar) returns (outcome: Outcome<Exception>)
      requires Complete(attrs)
      modifies this
      ensures outcome.Fail? <==> IsListKey(key) && v.Int?
      ensures outcome.Fail? ==> outcome.error == SPLIT_ERROR
      ensures outcome.Pass? && AttrNamed(key).Some? ==>
                attrs == old(attrs)[AttrNamed(key).value := NewAttribute(AttrNamed(key).value, v)]
      ensures outcome.Pass? && AttrNamed(key).None? ==> attrs == old(attrs)
    {
      ListKeyAttr(key);
      if key == "inputs" || key == "signature" {
        var parts := SplitValue(v);
        if parts.Err? {
          return Fail(parts.error);
        }
        SetAttr(AttrNamed(key).value, parts.value);
      } else if HasAttr(key) {
        SetAttr(AttrNamed(key).value, v.ToPy());
      }
      return Pass;
    }

    /** `InvokeParams(data)`: allocation, then `__init__`'s loop over the keys of data. */
    static method New(data: map<string, Scalar>) returns (r: Result<InvokeParams, Exception>)
      ensures r.Err? ==> InvokeParamsFrom(data).Err? && r.error == InvokeParamsFrom(data).error
      ensures r.Ok? ==> InvokeParamsFrom(data).Ok? && fresh(r.value) && r.value.attrs == InvokeParamsFrom(data).value
    {
      var p := new InvokeParams();
      var remaining := data.Keys;
      while remaining != {}
        invariant remaining <= data.Keys
        invariant Complete(p.attrs)
        invariant forall a :: IsListAttr(a) && Name(a) in data && Name(a) !in remaining ==> data[Name(a)].Str?
        invariant forall a :: a in p.attrs ==>
          p.attrs[a] == if Name(a) in data && Name(a) !in remaining then NewAttribute(a, data[Name(a)]) else Default(a)
        decreases remaining
      {
        var key :| key in remaining;
        var outcome := p.Assign(key, data[key]);
        if outcome.Fail? {
          return Err(outcome.error);
        }
        forall a | Name(a) == key
          ensures a == AttrNamed(key).value
        {
          NameInjective(a, AttrNamed(key).value);
        }
        remaining := remaining - {key};
      }
      assert !HasUnsplittable(data) by {
        assert Name(Inputs) == "inputs" && Name(Signature) == "signature";
      }
      return Ok(p);
    }

    /** handle_network_param's effect: the two gateway URLs. */
    method SetGatewayUrls(gatewayUrl: PyValue, feederGatewayUrl: PyValue)
      requires GatewayUrl in attrs && FeederGatewayUrl in attrs
      modifies this
      ensures attrs == old(attrs)[GatewayUrl := gatewayUrl][FeederGatewayUrl := feederGatewayUrl]
    {
      SetAttr(GatewayUrl, gatewayUrl);
      SetAttr(FeederGatewayUrl, feederGatewayUrl);
    }
  }

  // ---------------------------------------------------------------------------
  // Gateway clients

  /** `InvokeFunction(contract_address, entry_point_selector, calldata, signature)` */
  datatype InvokeFunction = InvokeFunction(contractAddress: int, entryPointSelector: int, calldata: seq<int>, signature: seq<int>)

  /** The real StarkNet clients' network round trips, built from the parameters. */
  datatype Gateways = Gateways(
    callContract: (map<Attr, PyValue>, InvokeFunction, PyValue, PyValue) -> Result<PyDict, Exception>,
    addTransaction: (map<Attr, PyValue>, InvokeFunction) -> Result<PyDict, Exception>)

  const CALL_RESULT: int := 1
  const INVOKE_RESULT: int := 2
  const TRANSACTION_RECEIVED: string := "TRANSACTION_RECEIVED"

  /** A gateway client: the in-memory stand-in, or a real client built from the parameters. */
  datatype Client = MockGateway | FeederGatewayClient(params: map<Attr, PyValue>) | GatewayClient(params: map<Attr, PyValue>) {

    /** `await client.call_contract(invoke_tx, block_hash, block_number)` */
    function CallContract(net: Gateways, tx: InvokeFunction, blockHash: PyValue, blockNumber: PyValue): Result<PyDict, Exception> {
      match this
      case MockGateway => Ok([("result", PInt(CALL_RESULT))])
      case FeederGatewayClient(p) => net.callContract(p, tx, blockHash, blockNumber)
      case GatewayClient(_) => Err(Exception("AttributeError", "'GatewayClient' object has no attribute 'call_contract'"))
    }

    /** `await client.add_transaction(tx)` */
    function AddTransaction(net: Gateways, tx: InvokeFunction): Result<PyDict, Exception> {
      match this
      case MockGateway => Ok([("code", PStr(TRANSACTION_RECEIVED)), ("transaction_hash", PInt(INVOKE_RESULT))])
      case GatewayClient(p) => net.addTransaction(p, tx)
      case FeederGatewayClient(_) => Err(Exception("AttributeError", "'FeederGatewayClient' object has no attribute 'add_transaction'"))
    }
  }

  /** `get_feeder_gateway_client_wrapper`: the stand-in exactly when `testing` is truthy. */
  function FeederGatewayClientWrapper(params: map<Attr, PyValue>): (c: Client)
    requires Testing in params
    ensures c.MockGateway? <==> Truthy(params[Testing])
    ensures !c.MockGateway? ==> c == FeederGatewayClient(params)
  {
    if Truthy(params[Testing]) then MockGateway else FeederGatewayClient(params)
  }

  /** `get_gateway_client_wrapper`: the stand-in exactly when `testing` is truthy. */
  function GatewayClientWrapper(params: map<Attr, PyValue>): (c: Client)
    requires Testing in params
    ensures c.MockGateway? <==> Truthy(params[Testing])
    ensures !c.MockGateway? ==> c == GatewayClient(params)
  {
    if Truthy(params[Testing]) then MockGateway else GatewayClient(params)
  }
}
