# Cairo gRPC gateway: a verified model

The project models the core of a gRPC service that runs compiled Cairo programs and calls StarkNet contracts. It also covers two pieces of the StarkNet library that this core depends on.

- **Typed-value codec** (`helper.dfy`, module `Helper`). Python ints and strs are packed into protobuf `Any` containers that wrap an `Int32Value` or a `StringValue`. Unpacking reverses this. An element that is neither wrapper is silently dropped.
- **InvokeParams** (`helper.dfy`). A class whose attributes start at their class defaults. `__init__` copies each known key of the decoded parameter map, splits `inputs` and `signature` on commas, and ignores unknown keys.
- **Stand-in gateway and client choice** (`helper.dfy`). `MockGateway` returns canned answers. The two client wrappers choose it when `testing` is truthy.
- **Method router** (`server.dfy`, module `Server`). `CairoServicer.Call` decodes the parameters and dispatches on the method name. For `cairo_run` it hex-decodes the program first. Any exception raised inside the `try` becomes a three-string error list. The result list is always encoded as the reply.
- **`call_cairo_run`** (`methods.dfy`, module `Methods`).
  - The runner is a `CairoRunner` class that is driven step by step.
  - The callback label is resolved by name, falling back to `default`.
  - The run has no step limit and is not in proof mode.
  - The result is the output builtin's cells, read in a loop.
- **`call_starknet_run`** (`methods.dfy`), in the code's order:
  - read or write mode;
  - parsing of inputs and signature;
  - `json.loads` of the ABI;
  - the `0x` address check and hex parse;
  - the for/else search of the ABI;
  - selector, network and transaction;
  - the read and write result shapes, including the `TRANSACTION_RECEIVED` check.
- **Validated fields** (`validated_fields.dfy`, module `ValidatedFields`).
  - range, multi-range, fixed-length bytes and optional fields;
  - their validity checks, formatting and error messages;
  - `validate`;
  - the sample invalid values;
  - the marshmallow field choice;
  - metadata construction, including `_generate_metadata`.
- **Contract definition** (`contract_definition.dfy`, module `ContractDefinitions`).
  - the entry-point checks of `__post_init__`;
  - `validate` (builtins are a subsequence of the supported list, and the prime is the default);
  - `remove_debug_info`.

Supporting modules:

- `wrappers.dfy`: `Option`, `Result`, `Outcome`.
- `python.dfy`: Python values, exceptions, `str`/`repr`, dict lookup, `str.split`/`join`.
- `codecs.dfy`: `binascii.hexlify`/`unhexlify`, `hex()`, `int(s, 16)`, UTF-8 well-formedness.
- `error_handling.dfy`: `stark_assert` and `StarkException`.

The Cairo VM, the program loader, the StarkNet CLI helpers and the network are not modelled. They enter as function-valued fields of the capability datatypes `CairoVm` and `Starknet`. Each operation that changes state is a method, proved equal to a pure specification function, for example `Server.Call` and `Server.Reply`, or `Methods.CallStarknetRun` and `Methods.StarknetRun`. The lemmas are stated about those functions.

Points where the code behaves differently from what its tests expect, or where its behaviour is easy to misread:

- **ABI.** `call_starknet_run` always runs `json.loads(params.abi)` (methods.py:71). With the class default `abi = ""` this raises JSONDecodeError, so a request without an ABI always fails (`Methods.MissingAbiFails`).
  - `test_starknet_call` (methods_test.py:59-68) sends no ABI and expects the call result.
  - `test_starknet_address_error` (methods_test.py:71-81) sends no ABI and expects the address AssertionError, which is raised only after `json.loads`.
- **Program bytes in the tests.** `test_cairo_call` (methods_test.py:35-37) passes hexlified bytes straight to `call_cairo_run`. The server unhexlifies the request's code first (server.py:22-24, `Server.HexlifiedCodeDecodes`).
- **Error line.** The error triple reports `server.py` and the line of the `try` body that was executing. `sys.exc_info()[2]` is the traceback entry of the catching frame. The file and line (22, 23, 24 or 26) are therefore determined by the failing step.

## Model

| member | source | states |
|---|---|---|
| Python.SplitPiecesHaveNoSeparator | src/starkware/cairo/grpc/helper.py:27 | no piece of `s.split(",")` contains a comma |
| Python.JoinSplit | src/starkware/cairo/grpc/helper.py:27 | joining the pieces of a split with the separator gives the string back |
| Python.SplitJoin | src/starkware/cairo/grpc/helper.py:27 | splitting a join of comma-free pieces gives the pieces back |
| Python.DictGet | src/starkware/cairo/grpc/methods.py:108 | a lookup succeeds exactly when the key is bound, and answers the value of its first binding; otherwise KeyError whose text is the quoted key |
| Codecs.Unhexlify | src/starkware/cairo/grpc/server.py:23 | a decoded program has half as many bytes as the hex text |
| Codecs.UnhexlifyHexlify | src/starkware/cairo/grpc/server.py:23 | unhexlify undoes hexlify for every byte string |
| Codecs.ParseHexAddress | src/starkware/cairo/grpc/methods.py:75 | `int(s, 16)` on a "0x" str succeeds only when, after the trailing characters `int()` strips, the rest is digits with at most one underscore before each; a digit is an ASCII hex digit or a decimal digit of another script |
| Codecs.DigitValue | src/starkware/cairo/grpc/methods.py:75 | an ASCII character has its hex digit value; beyond ASCII a decimal digit has its decimal value; every value is below 16 |
| Codecs.DecimalZero | src/starkware/cairo/grpc/methods.py:75 | a code point `int()` reads as a decimal digit lies in a block of ten digits starting at the returned zero |
| Codecs.SeparatorIsNotStripped | src/starkware/cairo/grpc/methods.py:75 | `int("0x1\x1c", 16)` raises: U+001C is not stripped, although `str.isspace()` accepts it |
| Codecs.ArabicIndicDigitsAreDigits | src/starkware/cairo/grpc/methods.py:75 | `int("0x\u0661\u0662", 16) == 0x12`: decimal digits of other scripts count as digits |
| Codecs.ParseHexAddressOfPyHex | src/starkware/cairo/grpc/methods.py:75 | `int(hex(n), 16) == n` for every non-negative n |
| Codecs.AsciiIsValidUtf8 | src/starkware/cairo/grpc/server.py:22 | bytes below 0x80 always decode as UTF-8 |
| ErrorHandling.StarkAssert | src/starkware/starkware_utils/validated_fields.py:78 | passes exactly when the condition holds, else raises with the given code and message |
| Helper.Pack | src/starkware/cairo/grpc/helper.py:61-64 | packing succeeds exactly for a 32-bit int, a str or None; an int becomes an Int32Value of it, a str a StringValue of it, None an empty StringValue |
| Helper.Unpack | src/starkware/cairo/grpc/helper.py:88-94 | unpacking fails exactly for a message that is neither wrapper |
| Helper.EncodedArray | src/starkware/cairo/grpc/helper.py:57-68 | encoding succeeds iff every element encodes; then the same length, and element k is the packing of input element k; a failure is the error of the first element that does not encode |
| Helper.EncodeGrpcAnyArray | src/starkware/cairo/grpc/helper.py:57-68 | the appending loop produces exactly EncodedArray: length and order kept, each element packed |
| Helper.EncodeStrings | src/starkware/cairo/grpc/server.py:35 | a list of strs is encoded as StringValues of the same strs, in order |
| Helper.EncodeGrpcAnyMap | src/starkware/cairo/grpc/helper.py:71-82 | succeeds iff every value encodes; then exactly the input's keys, each holding the packing of its value; a failure is the error of one of the values |
| Helper.DecodedArray | src/starkware/cairo/grpc/helper.py:85-96 | the decoding is never longer than the input |
| Helper.DecodedArrayAppend | src/starkware/cairo/grpc/helper.py:87-94 | decoding one more element appends that element's decoding |
| Helper.DecodeGrpcAnyArray | src/starkware/cairo/grpc/helper.py:85-96 | the loop produces exactly DecodedArray: the unpacked values, in order, never more than the input |
| Helper.DecodedMap | src/starkware/cairo/grpc/helper.py:99-110 | the decoded keys are among the input's keys |
| Helper.DecodeGrpcAnyMap | src/starkware/cairo/grpc/helper.py:99-110 | a key survives exactly when its value is an Int32Value or a StringValue, and it holds the unpacked value |
| Helper.DecodeSkipsOther | src/starkware/cairo/grpc/helper.py:88-94 | an element of a foreign type vanishes without disturbing its neighbours |
| Helper.DecodeWithoutOther | src/starkware/cairo/grpc/helper.py:85-96 | without foreign elements, the decoding has one value per element, each the element's unpacking |
| Helper.ArrayRoundTrip | src/starkware/cairo/grpc/helper.py:57-96 | decoding the encoding of strs and 32-bit ints gives them back |
| Helper.MapRoundTrip | src/starkware/cairo/grpc/helper.py:71-110 | a map of strs and 32-bit ints encodes, and decodes to itself |
| Helper.AttrNamed | src/starkware/cairo/grpc/helper.py:28 | `hasattr`: the declared attribute of that name, or none when no attribute has it |
| Helper.NameInjective | src/starkware/cairo/grpc/helper.py:10-22 | distinct declared attributes have distinct names |
| Helper.ClassDefaults | src/starkware/cairo/grpc/helper.py:10-22 | a fresh instance has every declared attribute |
| Helper.SplitValue | src/starkware/cairo/grpc/helper.py:27 | only a str can be split; an int raises AttributeError |
| Helper.ListKeyAttr | src/starkware/cairo/grpc/helper.py:26 | the keys tested on line 26 are exactly the names of the two list attributes |
| Helper.InvokeParamsFrom | src/starkware/cairo/grpc/helper.py:24-29 | construction fails exactly when `inputs` or `signature` holds an int, with the `'int' object has no attribute 'split'` error; otherwise every attribute is set, and one whose name is not a key keeps its class default |
| Helper.InvokeParamsFields | src/starkware/cairo/grpc/helper.py:25-29 | a key naming an attribute sets it: copied, or for inputs/signature split into comma-free pieces that join back to the given string |
| Helper.InvokeParamsIgnoresUnknownKeys | src/starkware/cairo/grpc/helper.py:28-29 | adding a key that names no attribute changes nothing |
| Helper.AttributeOf | src/starkware/cairo/grpc/helper.py:28-29 | a non-list attribute is the parameter of its name, or its class default |
| Helper.InvokeParams.constructor | src/starkware/cairo/grpc/helper.py:9-22 | a new instance shows the class defaults |
| Helper.InvokeParams.SetAttr | src/starkware/cairo/grpc/helper.py:29 | `__setattr__` changes that attribute only |
| Helper.InvokeParams.Assign | src/starkware/cairo/grpc/helper.py:26-29 | one round of the loop fails exactly for an int under inputs/signature; otherwise it sets the named attribute, or changes nothing for an unknown key |
| Helper.InvokeParams.New | src/starkware/cairo/grpc/helper.py:24-29 | `InvokeParams(data)` yields a fresh object whose attributes are InvokeParamsFrom(data), or its error |
| Helper.InvokeParams.SetGatewayUrls | src/starkware/cairo/grpc/methods.py:92 | handle_network_param changes the two gateway URLs and nothing else |
| Helper.FeederGatewayClientWrapper | src/starkware/cairo/grpc/helper.py:43-47 | the stand-in gateway exactly when `testing` is truthy, else the feeder client for these parameters |
| Helper.GatewayClientWrapper | src/starkware/cairo/grpc/helper.py:50-54 | the stand-in gateway exactly when `testing` is truthy, else the gateway client for these parameters |
| Methods.Relocatable.Plus | src/starkware/cairo/grpc/methods.py:57 | `base + i` stays in the segment and moves the offset by i |
| Methods.MaxSteps | src/starkware/cairo/grpc/methods.py:36-38 | no step budget means no limit; a budget is lowered by exactly one step in proof mode, and otherwise kept |
| Methods.MemGet | src/starkware/cairo/grpc/methods.py:57 | `vm_memory.get` gives the cell's value, or None for an unset cell |
| Methods.OutputValues | src/starkware/cairo/grpc/methods.py:53-58 | fails exactly when there is no output builtin (KeyError); otherwise exactly `size` values, value i being the cell at base + i |
| Methods.CallbackFallback | src/starkware/cairo/grpc/methods.py:29-34 | the named label when it resolves; `default` when the key is missing or the named lookup fails; a failure is always the failure of the `default` lookup |
| Methods.CairoRunResult | src/starkware/cairo/grpc/methods.py:15-60 | a run succeeds iff every step succeeds and the output builtin exists; it returns exactly the output cells |
| Methods.RunSetupOfCairoRun | src/starkware/cairo/grpc/methods.py:16-39 | the run gets the small layout, no proof mode, no step limit, the parameters as `program_input` and the resolved callback |
| Methods.CairoRunner.constructor | src/starkware/cairo/grpc/methods.py:20-24 | a runner holds the program, layout and proof mode, with nothing installed and no run yet |
| Methods.CairoRunner.InitializeVm | src/starkware/cairo/grpc/methods.py:28 | installs the parameters as `program_input` and changes nothing else |
| Methods.CairoRunner.SetCallback | src/starkware/cairo/grpc/methods.py:31 | binds `callback` among the static locals and changes nothing else |
| Methods.CairoRunner.RunUntilPc | src/starkware/cairo/grpc/methods.py:39 | runs with the installed locals; on success the VM state is the run's result, on failure it is unchanged |
| Methods.CairoRunner.EndRun | src/starkware/cairo/grpc/methods.py:49-51 | finishes the run; on success the VM state is the finished state, on failure it is unchanged |
| Methods.CairoRunner.ReadOutput | src/starkware/cairo/grpc/methods.py:53-60 | the reading loop returns exactly OutputValues of the final state |
| Methods.CallCairoRun | src/starkware/cairo/grpc/methods.py:15-60 | the step-by-step run on a CairoRunner returns exactly CairoRun |
| Methods.LoadAbi | src/starkware/cairo/grpc/methods.py:71 | the empty ABI text always fails with JSONDecodeError; a non-str fails with TypeError |
| Methods.ParseAddress | src/starkware/cairo/grpc/methods.py:73-77 | succeeds iff the address is a str that starts with "0x" and parses as hex, giving its value; a missing prefix gives the AssertionError, a bad body the ValueError, each with its message |
| Methods.ParseAddressOfHex | src/starkware/cairo/grpc/methods.py:73-77 | an address written by `hex(n)` parses back to n |
| Methods.IsMatch | src/starkware/cairo/grpc/methods.py:80 | a match means type "function" and the same name; a failure is a KeyError |
| Methods.FindFunction | src/starkware/cairo/grpc/methods.py:79-88 | the first matching entry, with every earlier entry a plain mismatch; none when every entry mismatches; an error is that of the first entry that is not a mismatch |
| Methods.FindFunctionUnique | src/starkware/cairo/grpc/methods.py:79-88 | the search's answer is decided by the first entry that is not a mismatch |
| Methods.ReadResult | src/starkware/cairo/grpc/methods.py:103-108 | a read answers the one-element list of the response's "result", even when that is a list; a gateway error passes through unchanged, and a response without "result" gives its KeyError |
| Methods.WriteResult | src/starkware/cairo/grpc/methods.py:109-116 | a write answers [TRANSACTION_RECEIVED, transaction_hash]; any other code raises the AssertionError naming the response; a gateway error passes through unchanged, and a missing "code", or a missing "transaction_hash" after an accepted code, gives its KeyError |
| Methods.ValidatedEntry | src/starkware/cairo/grpc/methods.py:79-88 | a success is the index of the entry the search finds; when the search ends without a match the result is "Function X not found." |
| Methods.ValidatedEntryValidates | src/starkware/cairo/grpc/methods.py:79-88 | validate_arguments runs on the found entry and decides: a success means it accepted the inputs, its failure is the result, its acceptance gives that entry; a KeyError of the search is the result |
| Methods.FindFunctionSkip | src/starkware/cairo/grpc/methods.py:79-80 | an entry that is not the named function moves the search on to the next entry |
| Methods.SearchAbi | src/starkware/cairo/grpc/methods.py:79-88 | the for/else loop returns exactly ValidatedEntry |
| Methods.Prepare | src/starkware/cairo/grpc/methods.py:64-99 | a prepared request has every attribute, agrees with InvokeParams(data) except the gateway URLs, and had a loadable ABI and a well-formed address; its transaction targets that address and passed InvokeFunction's field validation |
| Methods.PrepareParams | src/starkware/cairo/grpc/methods.py:64-99 | the steps on an InvokeParams object give exactly Prepare |
| Methods.CallStarknetRun | src/starkware/cairo/grpc/methods.py:63-118 | returns exactly StarknetRun |
| Methods.PreparedAttribute | src/starkware/cairo/grpc/methods.py:64 | a prepared attribute, other than the URLs, is the parameter of its name or its class default |
| Methods.SubmitShape | src/starkware/cairo/grpc/methods.py:103-116 | a read answers one value; a write answers two, the first TRANSACTION_RECEIVED |
| Methods.SubmitToMockGateway | src/starkware/cairo/grpc/helper.py:32-54 | with `testing` truthy, a read answers [1], and a write [TRANSACTION_RECEIVED, 2] |
| Methods.StarknetRunNeedsAbiAndAddress | src/starkware/cairo/grpc/methods.py:71-77 | success needs an explicit non-empty ABI str and an address str of "0x" and hex digits |
| Methods.PreparedTransaction | src/starkware/cairo/grpc/methods.py:68-99 | a prepared request passed validate_arguments on its function's ABI entry; its transaction carries get_selector_from_name(function) as selector, the parsed inputs as calldata and the parsed signature |
| Methods.RunIsPrepared | src/starkware/cairo/grpc/methods.py:64-99 | a request that succeeds was prepared, with a loadable ABI and a well-formed address |
| Methods.AddressWithoutPrefixFails | src/starkware/cairo/grpc/methods.py:73 | once parameters, inputs, signature and ABI are read, an address str without "0x" fails with "The address must start with '0x'. Got: X.", and no gateway is asked |
| Methods.FunctionNotFoundFails | src/starkware/cairo/grpc/methods.py:79-88 | once the address is parsed, an ABI without an entry for the named function fails with "Function X not found.", and no gateway is asked |
| Methods.MissingAbiFails | src/starkware/cairo/grpc/methods.py:71 | without an "abi" parameter the request fails with the JSONDecodeError of the empty default |
| Methods.IsCallOfPrepared | src/starkware/cairo/grpc/methods.py:66 | it is a read exactly when the type parameter is not "invoke" |
| Methods.StarknetRunShape | src/starkware/cairo/grpc/methods.py:101-118 | a successful invoke answers two values, the first TRANSACTION_RECEIVED; any other type answers one |
| Methods.StarknetRunWithMockGateway | src/starkware/cairo/grpc/methods.py:103-116 | with `testing` set, a prepared request is answered by the stand-in: [1] for a read, [TRANSACTION_RECEIVED, 2] for a write |
| Server.ErrorResult | src/starkware/cairo/grpc/server.py:32 | the error report is three strs |
| Server.DecodeCode | src/starkware/cairo/grpc/server.py:22-23 | invalid UTF-8 fails at line 22; any other failure is at line 23; success means ASCII code and half as many program bytes |
| Server.Call | src/starkware/cairo/grpc/server.py:16-37 | returns exactly Reply: the encoded result of the dispatched method, or the encoding error |
| Server.UnknownMethodReply | src/starkware/cairo/grpc/server.py:27-28 | an unknown method is answered with the single str "Error. Unknown method: " + name |
| Server.CaughtFailureReply | src/starkware/cairo/grpc/server.py:29-35 | an exception in the try never escapes; the reply is the three strs "Error: …", "File: server.py", "Line n" |
| Server.ReplyFailsOnlyOnEncoding | src/starkware/cairo/grpc/server.py:29-37 | Call fails only when the method's own result holds a value that does not encode; otherwise one reply element per result value |
| Server.AsciiBytes | src/starkware/cairo/grpc/server.py:22 | the bytes of an ASCII text decode back to it |
| Server.HexlifiedCodeDecodes | src/starkware/cairo/grpc/server.py:22-23 | a program sent as its hexlified text reaches call_cairo_run unchanged |
| Server.StarknetRunDispatch | src/starkware/cairo/grpc/server.py:25-26 | a starknet_run request is answered with the encoded result of call_starknet_run, or with the error report of line 26 |
| Server.CairoRunDispatch | src/starkware/cairo/grpc/server.py:21-24 | a cairo_run request with hexlified code is answered with the run's output, or the error report of line 24 |
| ValidatedFields.HexFormatRoundTrip | src/starkware/starkware_utils/validated_fields.py:189-192 | what the `hex` formatter writes, `int(s, 16)` reads back |
| ValidatedFields.NewMarshmallowField | src/starkware/starkware_utils/validated_fields.py:302 | `cls(required=r)` has that class and `required`, and disallows None |
| ValidatedFields.AnyContains | src/starkware/starkware_utils/validated_fields.py:242-243 | `any(...)` holds iff some range holds the value |
| ValidatedFields.Zeros | src/starkware/starkware_utils/validated_fields.py:276 | `b"\x00" * n` has length n, and is empty when n is not positive |
| ValidatedFields.WithoutNone | src/starkware/starkware_utils/validated_fields.py:154 | keeps exactly the values that are not None |
| ValidatedFields.WithoutNoneAppend | src/starkware/starkware_utils/validated_fields.py:154 | the filter distributes over concatenation, so the kept values stay in their order, repeats included |
| ValidatedFields.SeqMin | src/starkware/starkware_utils/validated_fields.py:251 | `min` is an element and at most every element |
| ValidatedFields.SeqMax | src/starkware/starkware_utils/validated_fields.py:251 | `max` is an element and at least every element |
| ValidatedFields.MultiRangeInvalidValues | src/starkware/starkware_utils/validated_fields.py:245-251 | fails with `min()`'s ValueError exactly for no ranges; otherwise two values, neither in any range |
| ValidatedFields.Field.IsValid | src/starkware/starkware_utils/validated_fields.py:221-222 | a range holds lower ≤ v < upper; a multi-range holds v iff one of its ranges does; a byte string is valid iff its length is exact; the optional wrapper admits None and otherwise delegates |
| ValidatedFields.Field.InvalidValueMessage | src/starkware/starkware_utils/validated_fields.py:156-281 | every message about a value other than None opens with the given name, else the field's own; a range message is "name v is out of range" with v written by the formatter (`str(v)` for none or `str`, `hex(v)` for `hex`); a byte message is "name hex length is not L bytes, instead it is n"; the optional wrapper answers None with "name is valid (None)." |
| ValidatedFields.Field.Validate | src/starkware/starkware_utils/validated_fields.py:73-78 | fails exactly when the value is invalid, with the field's error code and its invalid-value message; the optional wrapper passes None and otherwise acts as the wrapped field |
| ValidatedFields.Field.MultiRangeGetInvalidValues | src/starkware/starkware_utils/validated_fields.py:245-251 | the collecting loop gives exactly the field's invalid values |
| ValidatedFields.Field.MarshmallowOf | src/starkware/starkware_utils/validated_fields.py:194-204 | fails with NotImplementedError exactly for a range field with a formatter other than none, `hex` or `str`; other fields give a required field that disallows None, and the optional wrapper its own copy; the `hex` formatter gives IntAsHex, `str` IntAsStr, no formatter Integer, and a byte field BytesAsHex |
| ValidatedFields.Field.Metadata | src/starkware/starkware_utils/validated_fields.py:101-110 | fails exactly where the field has no marshmallow field; otherwise holds exactly three entries: that marshmallow field, the field itself, and the given name or else the field's own |
| ValidatedFields.NewOptionalField | src/starkware/starkware_utils/validated_fields.py:123-135 | wraps the field under its name and code, with None allowed, None as load default and not required; fails where the wrapped field has no marshmallow field |
| ValidatedFields.NewBytesLengthField | src/starkware/starkware_utils/validated_fields.py:261-265 | construction succeeds exactly for a positive length, else "Bytes length must be at least 1." |
| ValidatedFields.BytesFormatRoundTrip | src/starkware/starkware_utils/validated_fields.py:287-288 | what a byte field writes in messages, unhexlify reads back |
| ValidatedFields.InvalidValuesAreInvalid | src/starkware/starkware_utils/validated_fields.py:224-276 | every sample invalid value of a well-formed field has its type and is rejected by `is_valid`; the samples fail only for a multi-range without ranges |
| ValidatedFields.GenerateMetadata | src/starkware/starkware_utils/validated_fields.py:294-306 | `required` defaults to True; the `validated_field` key is present exactly when a field is given |
| ContractDefinitions.IncreasingUpTo | src/starkware/starknet/services/api/contract_definition.py:52-60 | adjacent increase gives increase between any two positions |
| ContractDefinitions.IncreasingIsSortedAndUnique | src/starkware/starknet/services/api/contract_definition.py:52-60 | the adjacent check holds iff the selectors are sorted and unique; empty and one-element lists pass |
| ContractDefinitions.NewContractDefinition | src/starkware/starknet/services/api/contract_definition.py:49-73 | construction succeeds iff every type's selectors increase, a constructor list exists and it has at most one entry; each failure is INVALID_CONTRACT_DEFINITION, the unsorted message exactly when some list does not increase; with every list increasing, the missing-constructor message without a constructor list and the at-most-one-constructor message otherwise |
| ContractDefinitions.SubsequenceEmbeds | src/starkware/starknet/services/api/contract_definition.py:77 | a successful greedy match places the builtins at increasing positions of the supported list |
| ContractDefinitions.EmbeddingIsSubsequence | src/starkware/starknet/services/api/contract_definition.py:77 | whenever such positions exist, the greedy match succeeds |
| ContractDefinitions.SubsequenceIff | src/starkware/starknet/services/api/contract_definition.py:77 | the check is exactly the order-preserving subsequence relation |
| ContractDefinitions.IncreasingImage | src/starkware/starknet/services/api/contract_definition.py:77 | increasing positions below n number at most n |
| ContractDefinitions.SubsequenceOfDistinct | src/starkware/starknet/services/api/contract_definition.py:76-80 | a subsequence of a list without repeats has no repeats, takes its elements from the list, is no longer, and keeps its order |
| ContractDefinitions.AcceptedBuiltins | src/starkware/starknet/services/api/contract_definition.py:21 | accepted builtins are at most four supported names, none repeated, in the order pedersen, range_check, ecdsa, bitwise |
| ContractDefinitions.Validate | src/starkware/starknet/services/api/contract_definition.py:75-88 | passes iff the builtins are a subsequence of the supported list and the prime is DEFAULT_PRIME; a builtins failure is INVALID_CONTRACT_DEFINITION, a prime failure SECURITY_ERROR |
| ContractDefinitions.RemoveDebugInfo | src/starkware/starknet/services/api/contract_definition.py:90-96 | the program's debug info becomes None and everything else is kept; the rebuilt definition passes its checks exactly when the original does |
| ContractDefinitions.RemoveDebugInfoIdempotent | src/starkware/starknet/services/api/contract_definition.py:90-96 | removing debug info twice equals once, and `validate` answers alike before and after |

## Left out

- **Process and transport.** Server start-up, argument parsing, the worker pool and the gRPC stubs are I/O and generated code. `async`/`await` and `asyncio.run` are treated as synchronous calls.
- **Cairo VM internals.** These are parameters of `CairoVm`: program loading (`json.loads` plus `Program.Schema().load`), segment and entry-point initialisation, `initialize_vm`'s own failures, `get_label`, `run_until_pc`, `end_run`/`read_return_values`, and which builtins a layout provides. `original_steps` and `disable_trace_padding` are not observable in the result.
- Methods.CairoRunner.InitializeVm: installing `program_input` cannot fail in the model. A failure of `initialize_vm` itself (hint compilation, `validate_existing_memory`) is expressed only as a failure of the `mainEntrypoint` capability, which runs immediately before it. Nothing observable happens in between, so the reply is the same; only which capability is blamed differs.
- **Labels named by an int.** `get_label` applied to an int `function` parameter is treated as a failed lookup, so the callback falls back to `default`.
- **Proof mode.** Proof mode is the constant False, as the code sets it, so `run_for_steps(1)` is never reached.
- **StarkNet CLI helpers.** These are parameters of `Starknet`: `parse_inputs`, `json.loads` of a non-empty ABI (its result is taken to be a list of dicts), `validate_arguments` with `identifier_manager_from_abi`, `get_selector_from_name`, and the real gateway clients' network calls.
- Methods.Prepare: the field validation that `InvokeFunction(...)` runs on construction (for example the range of the contract address) is a parameter of `Starknet` that may fail with any exception; which inputs it rejects is not modelled.
- Codecs.DecimalZero: the decimal digits are those of Unicode 15.0, the version Python 3.12 uses; older interpreters know fewer digit blocks.
- Helper.InvokeParams.SetGatewayUrls: `handle_network_param` is modelled only by the two gateway URLs it sets.
- **`hasattr` on other names.** `hasattr` is modelled on the declared attributes only, and a key naming a method or dunder attribute of the object (`"__init__"`, `"__class__"`, `"__dict__"`, ...) is treated as an unknown key and ignored. In the source such a key passes `hasattr` and is set with `__setattr__`. For a writable name that only adds an instance attribute nothing reads. For `"__class__"` or `"__dict__"` it raises TypeError, and the model drops that exception: `InvokeParams(data)` succeeds where the source raises.
- **Protobuf wire format.** Protobuf wire bytes are not modelled. A packing error's text follows the library only as far as its kind (ValueError or TypeError). The round-trip lemmas require 32-bit ints.
- Helper.EncodeGrpcAnyMap: dict order is left open, so when several values fail to encode the model says only that the error belongs to one of them.
- **Exception texts.** `repr` is modelled without string escaping, and the UnicodeDecodeError text is fixed rather than naming the offending byte.
- **Validated fields.**
  - `get_random_value`, `initialize_random` and the `none_probability` clamp are randomness and floats.
  - Marshmallow fields are modelled by their class and the `required`, `allow_none` and `load_default` settings.
  - The five `*_metadata` wrappers only pass a fixed class to `_generate_metadata`; GenerateMetadata takes that class as a parameter.
  - `sequential_id_metadata` and `validate_in_range` build library objects with no logic of their own here.
- **Multi-range sub-fields.** A multi-range field's sub-ranges are kept as their bounds only; their names, codes and formatters take no part in the code.
- **Contract definition.**
  - `error_handling.py`, `subsequence.py`, `cairo_constants.py` and the Cairo `Program` class are not part of this model. `stark_assert` raises a `StarkException` with the code and message. `is_subsequence` is the greedy order-preserving subsequence test. `DEFAULT_PRIME` is 2^251 + 17·2^192 + 1. A program is its prime, data, builtins, main scope and debug info.
  - The field validation that `ValidatedDataclass.__post_init__` runs on entry points (the selector and offset metadata) is not modelled.
