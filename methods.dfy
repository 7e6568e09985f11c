/** The two gateway methods: running a compiled Cairo program on the Cairo VM
    and reading its output builtin, and calling or invoking a StarkNet contract
    function through the (feeder) gateway. The Cairo VM, the program loader,
    the StarkNet CLI helpers and the network are capabilities passed in. */
module Methods {
  import opened Wrappers
  import opened Python
  import opened Codecs
  import opened Helper

  // ---------------------------------------------------------------------------
  // call_cairo_run

  /** A relocatable value, an address of the VM memory: a segment and an offset in it. */
  datatype Relocatable = Relocatable(segment: nat, offset: nat) {
    function Plus(i: nat): (a: Relocatable)
      ensures a.segment == segment && a.offset == offset + i
    {
      Relocatable(segment, offset + i)
    }
  }

  /** The output builtin's segment: its base and its allocated size. */
  datatype OutputSegment = OutputSegment(base: Relocatable, size: nat)

  /** The VM after a run: its memory, and the output builtin when the layout has one. */
  datatype VmState = VmState(memory: map<Relocatable, PyValue>, output: Option<OutputSegment>)

  /** What the run sees of the runner: its configuration, the entry point, the
      hint local `program_input` and the static locals (the callback label). */
  datatype RunSetup = RunSetup(
    layout: string,
    proofMode: bool,
    maxSteps: Option<int>,
    entrypoint: nat,
    programInput: map<string, Scalar>,
    staticLocals: map<string, nat>)

  /** The Cairo VM and the program tooling, over loaded programs of type P. */
  datatype CairoVm<!P> = CairoVm(
    // json.loads(code) and Program.Schema().load(...)
    load: seq<byte> -> Result<P, Exception>,
    // initialize_segments() and initialize_main_entrypoint(); a failure of
    // initialize_vm() (hint compilation, validate_existing_memory) is a failure here too
    mainEntrypoint: P -> Result<nat, Exception>,
    // program.get_label(name)
    getLabel: (P, string) -> Result<nat, Exception>,
    // run_until_pc(entrypoint, run_resources)
    runUntilPc: (P, RunSetup) -> Result<VmState, Exception>,
    // end_run() and read_return_values()
    endRun: (P, VmState) -> Result<VmState, Exception>)

  const LAYOUT: string := "small"
  const PROOF_MODE: bool := false

  /** `max_steps`: the step budget less the proof-mode extra step; no budget, no limit. */
  function MaxSteps(stepsInput: Option<int>, proofMode: bool): (r: Option<int>)
    ensures r.Some? <==> stepsInput.Some?
    ensures r.Some? ==> r.value <= stepsInput.value
    ensures r.Some? ==> r.value == stepsInput.value - if proofMode then 1 else 0
  {
    match stepsInput
    case None => None
    case Some(n) => Some(n - if proofMode then 1 else 0)
  }

  /** `runner.vm_memory.get(address)`: the cell's value, or None when it is unset. */
  function MemGet(memory: map<Relocatable, PyValue>, a: Relocatable): (v: PyValue)
    ensures a !in memory ==> v == PNone
    ensures a in memory ==> v == memory[a]
  {
    if a in memory then memory[a] else PNone
  }

  const OUTPUT_BUILTIN_MISSING := Exception("KeyError", "'output_builtin'")

  /** The output builtin's cells, one value per allocated cell, in order. */
  function OutputValues(s: VmState): (r: Result<seq<PyValue>, Exception>)
    ensures r.Err? <==> s.output.None?
    ensures r.Err? ==> r.error == OUTPUT_BUILTIN_MISSING
    ensures r.Ok? ==> |r.value| == s.output.value.size
    ensures r.Ok? ==> forall i :: 0 <= i < |r.value| ==> r.value[i] == MemGet(s.memory, s.output.value.base.Plus(i))
  {
    match s.output
    case None => Err(OUTPUT_BUILTIN_MISSING)
    case Some(seg) => Ok(seq(seg.size, i requires 0 <= i < seg.size => MemGet(s.memory, seg.base.Plus(i))))
  }

  /** The callback label: the label named by `params['function']`; when the key
      is missing, names no label or is not a str, the label `default`. */
  function ResolveCallback<P>(vm: CairoVm<P>, program: P, params: map<string, Scalar>): Result<nat, Exception> {
    var named :=
      if "function" in params && params["function"].Str? then vm.getLabel(program, params["function"].s)
      else Err(Exception("KeyError", "'function'"));
    if named.Ok? then named else vm.getLabel(program, "default")
  }

  /** The fallback of the callback lookup, as the label tests exercise it. */
  lemma CallbackFallback<P>(vm: CairoVm<P>, program: P, params: map<string, Scalar>)
    ensures "function" in params && params["function"].Str? && vm.getLabel(program, params["function"].s).Ok?
            ==> ResolveCallback(vm, program, params) == vm.getLabel(program, params["function"].s)
    ensures "function" !in params ==> ResolveCallback(vm, program, params) == vm.getLabel(program, "default")
    ensures "function" in params && params["function"].Str? && vm.getLabel(program, params["function"].s).Err?
            ==> ResolveCallback(vm, program, params) == vm.getLabel(program, "default")
    ensures ResolveCallback(vm, program, params).Err? ==> ResolveCallback(vm, program, params) == vm.getLabel(program, "default")
  {
  }

  /** The VM state after end_run, or the first exception of the run. */
  function RunToEnd<P>(vm: CairoVm<P>, params: map<string, Scalar>, code: seq<byte>): Result<VmState, Exception> {
    var program :- vm.load(code);
    var entrypoint :- vm.mainEntrypoint(program);
    var callback :- ResolveCallback(vm, program, params);
    var setup := RunSetup(LAYOUT, PROOF_MODE, MaxSteps(None, PROOF_MODE), entrypoint, params, map["callback" := callback]);
    var ran :- vm.runUntilPc(program, setup);
    vm.endRun(program, ran)
  }

  /** `call_cairo_run(params, code)`: the values of the output builtin's cells. */
  function CairoRun<P>(vm: CairoVm<P>, params: map<string, Scalar>, code: seq<byte>): Result<seq<PyValue>, Exception> {
    var final :- RunToEnd(vm, params, code);
    OutputValues(final)
  }

  /** A finished run returns exactly the output builtin's cells, and fails only
      when a step fails or the layout has no output builtin. */
  lemma {:induction false} CairoRunResult<P>(vm: CairoVm<P>, params: map<string, Scalar>, code: seq<byte>)
    ensures CairoRun(vm, params, code).Ok? <==> RunToEnd(vm, params, code).Ok? && RunToEnd(vm, params, code).value.output.Some?
    ensures CairoRun(vm, params, code).Ok? ==>
              var s := RunToEnd(vm, params, code).value;
              && |CairoRun(vm, params, code).value| == s.output.value.size
              && forall i :: 0 <= i < s.output.value.size ==>
                   CairoRun(vm, params, code).value[i] == MemGet(s.memory, s.output.value.base.Plus(i))
    ensures RunToEnd(vm, params, code).Ok? && RunToEnd(vm, params, code).value.output.None?
            ==> CairoRun(vm, params, code) == Err(OUTPUT_BUILTIN_MISSING)
  {
    var r := RunToEnd(vm, params, code);
    if r.Ok? {
      assert CairoRun(vm, params, code) == OutputValues(r.value);
    }
  }

  /** The run sees the decoded parameters unchanged as `program_input`, no step
      limit, the small layout, and the resolved callback. */
  lemma RunSetupOfCairoRun<P>(vm: CairoVm<P>, params: map<string, Scalar>, code: seq<byte>, program: P, entrypoint: nat, callback: nat)
    requires vm.load(code) == Ok(program)
    requires vm.mainEntrypoint(program) == Ok(entrypoint)
    requires ResolveCallback(vm, program, params) == Ok(callback)
    ensures RunToEnd(vm, params, code) ==
      var ran := vm.runUntilPc(program, RunSetup("small", false, None, entrypoint, params, map["callback" := callback]));
      if ran.Err? then Err(ran.error) else vm.endRun(program, ran.value)
  {
  }

  /** A CairoRunner: the loaded program, the hint locals and static locals the
      caller installs, and the VM state once the program has run. */
  class CairoRunner<P> {
    const program: P
    const layout: string
    const proofMode: bool
    var programInput: Option<map<string, Scalar>>
    var staticLocals: map<string, nat>
    var state: Option<VmState>

    constructor(program: P, layout: string, proofMode: bool)
      ensures this.program == program && this.layout == layout && this.proofMode == proofMode
      ensures programInput == None && staticLocals == map[] && state == None
    {
      this.program := program;
      this.layout := layout;
      this.proofMode := proofMode;
      programInput := None;
      staticLocals := map[];
      state := None;
    }

    /** `initialize_vm(hint_locals={"program_input": params})` */
    method InitializeVm(params: map<string, Scalar>)
      modifies this
      ensures programInput == Some(params)
      ensures staticLocals == old(staticLocals) && state == old(state)
    {
      programInput := Some(params);
    }

    /** `vm.static_locals.update({"callback": callback})` */
    method SetCallback(callback: nat)
      modifies this
      ensures staticLocals == old(staticLocals)["callback" := callback]
      ensures programInput == old(programInput) && state == old(state)
    {
      staticLocals := staticLocals["callback" := callback];
    }

    /** `run_until_pc(entrypoint, run_resources=RunResources(steps=max_steps))` */
    method RunUntilPc(vm: CairoVm<P>, entrypoint: nat, maxSteps: Option<int>) returns (outcome: Outcome<Exception>)
      requires programInput.Some?
      modifies this
      ensures var ran := vm.runUntilPc(program, RunSetup(layout, proofMode, maxSteps, entrypoint, old(programInput).value, old(staticLocals)));
              && (outcome.Fail? <==> ran.Err?)
              && (ran.Err? ==> outcome.error == ran.error && state == old(state))
              && (ran.Ok? ==> state == Some(ran.value))
      ensures programInput == old(programInput) && staticLocals == old(staticLocals)
    {
      var ran := vm.runUntilPc(program, RunSetup(layout, proofMode, maxSteps, entrypoint, programInput.value, staticLocals));
      if ran.Err? {
        return Fail(ran.error);
      }
      state := Some(ran.value);
      return Pass;
    }

    /** `end_run()` and `read_return_values()` */
    method EndRun(vm: CairoVm<P>) returns (outcome: Outcome<Exception>)
      requires state.Some?
      modifies this
      ensures var ended := vm.endRun(program, old(state).value);
              && (outcome.Fail? <==> ended.Err?)
              && (ended.Err? ==> outcome.error == ended.error && state == old(state))
              && (ended.Ok? ==> state == Some(ended.value))
      ensures programInput == old(programInput) && staticLocals == old(staticLocals)
    {
      var ended := vm.endRun(program, state.value);
      if ended.Err? {
        return Fail(ended.error);
      }
      state := Some(ended.value);
      return Pass;
    }

    /** The output loop: looks up the output builtin, then reads its cells one by one. */
    method ReadOutput() returns (r: Result<seq<PyValue>, Exception>)
      requires state.Some?
      ensures r == OutputValues(state.value)
    {
      var s := state.value;
      if s.output.None? {
        return Err(OUTPUT_BUILTIN_MISSING);
      }
      var base, size := s.output.value.base, s.output.value.size;
      var returnValues: seq<PyValue> := [];
      for i := 0 to size
        invariant |returnValues| == i
        invariant forall j :: 0 <= j < i ==> returnValues[j] == MemGet(s.memory, base.Plus(j))
      {
        var val := MemGet(s.memory, base.Plus(i));
        returnValues := returnValues + [val];
      }
      assert returnValues == OutputValues(s).value;
      return Ok(returnValues);
    }
  }

  /** `call_cairo_run(params, code)`, step by step on a CairoRunner. */
  method CallCairoRun<P>(vm: CairoVm<P>, params: map<string, Scalar>, code: seq<byte>) returns (r: Result<seq<PyValue>, Exception>)
    ensures r == CairoRun(vm, params, code)
  {
    var stepsInput: Option<int> := None;
    var program :- vm.load(code);
    var runner := new CairoRunner(program, LAYOUT, PROOF_MODE);
    var entrypoint :- vm.mainEntrypoint(program);
    runner.InitializeVm(params);
    var named :=
      if "function" in params && params["function"].Str? then vm.getLabel(program, params["function"].s)
      else Err(Exception("KeyError", "'function'"));
    if named.Ok? {
      runner.SetCallback(named.value);
    } else {
      var callback :- vm.getLabel(program, "default");
      runner.SetCallback(callback);
    }
    var maxSteps := MaxSteps(stepsInput, PROOF_MODE);
    var ran := runner.RunUntilPc(vm, entrypoint, maxSteps);
    if ran.Fail? {
      return Err(ran.error);
    }
    var ended := runner.EndRun(vm);
    if ended.Fail? {
      return Err(ended.error);
    }
    r := runner.ReadOutput();
  }

  // ---------------------------------------------------------------------------
  // call_starknet_run

  /** The StarkNet CLI helpers and the network, as capabilities. */
  datatype Starknet = Starknet(
    // parse_inputs(values)
    parseInputs: PyValue -> Result<seq<int>, Exception>,
    // json.loads(text) of a non-empty str, as a list of ABI entries
    loadAbi: string -> Result<seq<PyDict>, Exception>,
    // validate_arguments(inputs, abi_entry, identifier_manager_from_abi(abi))
    validateArguments: (seq<int>, PyDict, seq<PyDict>) -> Outcome<Exception>,
    // get_selector_from_name(name)
    selectorFromName: PyValue -> Result<int, Exception>,
    // handle_network_param(params): the gateway and feeder gateway URLs it leaves
    handleNetwork: map<Attr, PyValue> -> Result<(PyValue, PyValue), Exception>,
    // the field validation InvokeFunction(...) runs on construction
    checkTransaction: InvokeFunction -> Outcome<Exception>,
    gateways: Gateways)

  const EMPTY_JSON_ERROR := Exception("JSONDecodeError", "Expecting value: line 1 column 1 (char 0)")

  /** `json.loads(params.abi)`: the empty document is always an error, and only a str is accepted. */
  function LoadAbi(sn: Starknet, abi: PyValue): (r: Result<seq<PyDict>, Exception>)
    ensures abi == PStr("") ==> r == Err(EMPTY_JSON_ERROR)
    ensures !abi.PStr? ==> r.Err? && r.error.kind == "TypeError"
    ensures abi.PStr? && abi.s != "" ==> r == sn.loadAbi(abi.s)
  {
    match abi
    case PStr(s) => if s == "" then Err(EMPTY_JSON_ERROR) else sn.loadAbi(s)
    case _ => Err(Exception("TypeError", "the JSON object must be str, bytes or bytearray, not " + TypeName(abi)))
  }

  /** The address check and `int(params.address, 16)`. */
  function ParseAddress(address: PyValue): (r: Result<nat, Exception>)
    ensures r.Ok? <==> address.PStr? && StartsWith(address.s, "0x") && ParseHexAddress(address.s).Some?
    ensures r.Ok? ==> r.value == ParseHexAddress(address.s).value
    ensures address.PStr? && !StartsWith(address.s, "0x") ==>
              r == Err(Exception("AssertionError", "The address must start with '0x'. Got: " + address.s + "."))
    ensures address.PStr? && StartsWith(address.s, "0x") && ParseHexAddress(address.s).None? ==>
              r == Err(Exception("ValueError", "Invalid address format: " + address.s + "."))
  {
    if !address.PStr? then Err(NoAttribute(address, "startswith"))
    else if !StartsWith(address.s, "0x") then
      Err(Exception("AssertionError", "The address must start with '0x'. Got: " + address.s + "."))
    else match ParseHexAddress(address.s)
      case None => Err(Exception("ValueError", "Invalid address format: " + address.s + "."))
      case Some(n) => Ok(n)
  }

  /** An address written by `hex(n)` parses back to n. */
  lemma ParseAddressOfHex(n: nat)
    ensures ParseAddress(PStr(PyHex(n))) == Ok(n)
  {
    ParseHexAddressOfPyHex(n);
  }

  /** `abi_entry["type"] == "function" and abi_entry["name"] == name` */
  function IsMatch(entry: PyDict, name: PyValue): (r: Result<bool, Exception>)
    ensures r == Ok(true) ==> DictGet(entry, "type") == Ok(PStr("function")) && DictGet(entry, "name") == Ok(name)
    ensures r.Err? ==> r.error.kind == "KeyError"
  {
    var kind :- DictGet(entry, "type");
    if kind != PStr("function") then Ok(false)
    else
      var entryName :- DictGet(entry, "name");
      Ok(entryName == name)
  }

  /** The for/else search of the ABI: the index of the first entry that is
      the named function, None when the loop ends without one, or the
      KeyError of an entry without the looked-up keys. */
  function FindFunction(abi: seq<PyDict>, name: PyValue): (r: Result<Option<nat>, Exception>)
    ensures r.Ok? && r.value.Some? ==>
              && r.value.value < |abi|
              && IsMatch(abi[r.value.value], name) == Ok(true)
              && forall j :: 0 <= j < r.value.value ==> IsMatch(abi[j], name) == Ok(false)
    ensures r == Ok(None) ==> forall j :: 0 <= j < |abi| ==> IsMatch(abi[j], name) == Ok(false)
    ensures r.Err? ==> exists k :: 0 <= k < |abi| && IsMatch(abi[k], name) == Err(r.error)
                                   && forall j :: 0 <= j < k ==> IsMatch(abi[j], name) == Ok(false)
  {
    if abi == [] then Ok(None)
    else
      var m :- IsMatch(abi[0], name);
      if m then Ok(Some(0))
      else
        var rest :- FindFunction(abi[1..], name);
        assert forall j :: 1 <= j < |abi| ==> abi[j] == abi[1..][j - 1];
        Ok(if rest.Some? then Some(rest.value + 1) else None)
  }

  /** The search is determined by the entries: the verdict at the first index
      that is not a plain mismatch is what FindFunction returns. */
  lemma {:induction false} FindFunctionUnique(abi: seq<PyDict>, name: PyValue, k: nat)
    requires k <= |abi|
    requires forall j :: 0 <= j < k ==> IsMatch(abi[j], name) == Ok(false)
    ensures k < |abi| && IsMatch(abi[k], name) == Ok(true) ==> FindFunction(abi, name) == Ok(Some(k))
    ensures k < |abi| && IsMatch(abi[k], name).Err? ==> FindFunction(abi, name) == Err(IsMatch(abi[k], name).error)
    ensures k == |abi| ==> FindFunction(abi, name) == Ok(None)
  {
    if k > 0 {
      var rest := abi[1..];
      assert forall j :: 0 <= j < k - 1 ==> rest[j] == abi[j + 1];
      FindFunctionUnique(rest, name, k - 1);
      FindFunctionSkip(abi, name);
      if k < |abi| {
        assert rest[k - 1] == abi[k];
      }
    }
  }

  /** A plain mismatch at the head shifts the search's answer by one. */
  lemma FindFunctionSkip(abi: seq<PyDict>, name: PyValue)
    requires |abi| > 0 && IsMatch(abi[0], name) == Ok(false)
    ensures FindFunction(abi, name) ==
              match FindFunction(abi[1..], name)
              case Err(e) => Err(e)
              case Ok(None) => Ok(None)
              case Ok(Some(i)) => Ok(Some(i + 1))
  {
  }

  function NotFound(name: PyValue): Exception {
    Exception("Exception", "Function " + ToStr(name) + " not found.")
  }

  /** `[gateway_response["result"]]` */
  function ReadResult(response: Result<PyDict, Exception>): (r: Result<seq<PyValue>, Exception>)
    ensures r.Ok? ==> response.Ok? && DictGet(response.value, "result").Ok?
    ensures r.Ok? ==> r.value == [DictGet(response.value, "result").value]
    ensures response.Err? ==> r == Err(response.error)
    ensures response.Ok? && DictGet(response.value, "result").Err? ==> r == Err(DictGet(response.value, "result").error)
  {
    var d :- response;
    var v :- DictGet(d, "result");
    Ok([v])
  }

  /** The transaction must have been received; then `[code, transaction_hash]`. */
  function WriteResult(response: Result<PyDict, Exception>): (r: Result<seq<PyValue>, Exception>)
    ensures r.Ok? ==> response.Ok? && DictGet(response.value, "transaction_hash").Ok?
    ensures r.Ok? ==> r.value == [PStr(TRANSACTION_RECEIVED), DictGet(response.value, "transaction_hash").value]
    ensures response.Ok? && DictGet(response.value, "code").Ok? && DictGet(response.value, "code").value != PStr(TRANSACTION_RECEIVED)
            ==> r == Err(Exception("AssertionError", "Failed to send transaction. Response: " + DictRepr(response.value) + "."))
    ensures response.Err? ==> r == Err(response.error)
    ensures response.Ok? && DictGet(response.value, "code").Err? ==> r == Err(DictGet(response.value, "code").error)
    ensures response.Ok? && DictGet(response.value, "code") == Ok(PStr(TRANSACTION_RECEIVED))
            && DictGet(response.value, "transaction_hash").Err?
            ==> r == Err(DictGet(response.value, "transaction_hash").error)
  {
    var d :- response;
    var code :- DictGet(d, "code");
    if code != PStr(TRANSACTION_RECEIVED) then
      Err(Exception("AssertionError", "Failed to send transaction. Response: " + DictRepr(d) + "."))
    else
      var hash :- DictGet(d, "transaction_hash");
      Ok([code, hash])
  }

  /** Whether the request is a read (a call); everything but type "invoke" is. */
  predicate IsCall(attrs: map<Attr, PyValue>)
    requires Type in attrs
  {
    attrs[Type] != PStr("invoke")
  }

  /** The ABI loop with its `else`: the index of the first entry that is the
      named function, once validate_arguments accepts the inputs against it. */
  function ValidatedEntry(sn: Starknet, inputs: seq<int>, abi: seq<PyDict>, name: PyValue): (r: Result<nat, Exception>)
    ensures r.Ok? ==> FindFunction(abi, name) == Ok(Some(r.value))
    ensures FindFunction(abi, name) == Ok(None) ==> r == Err(NotFound(name))
  {
    var found :- FindFunction(abi, name);
    if found.None? then Err(NotFound(name))
    else
      var valid := sn.validateArguments(inputs, abi[found.value], abi);
      if valid.Fail? then Err(valid.error) else Ok(found.value)
  }

  /** validate_arguments runs on the entry the search finds, and decides the
      outcome: a found entry is returned only when the inputs pass, and a
      failure of validate_arguments, or a KeyError of the search, is the result. */
  lemma ValidatedEntryValidates(sn: Starknet, inputs: seq<int>, abi: seq<PyDict>, name: PyValue)
    ensures ValidatedEntry(sn, inputs, abi, name).Ok? ==>
              sn.validateArguments(inputs, abi[ValidatedEntry(sn, inputs, abi, name).value], abi).Pass?
    ensures FindFunction(abi, name).Ok? && FindFunction(abi, name).value.Some? ==>
              var k := FindFunction(abi, name).value.value;
              && (sn.validateArguments(inputs, abi[k], abi).Fail? ==>
                    ValidatedEntry(sn, inputs, abi, name) == Err(sn.validateArguments(inputs, abi[k], abi).error))
              && (sn.validateArguments(inputs, abi[k], abi).Pass? ==> ValidatedEntry(sn, inputs, abi, name) == Ok(k))
    ensures FindFunction(abi, name).Err? ==> ValidatedEntry(sn, inputs, abi, name) == Err(FindFunction(abi, name).error)
  {
  }

  /** The `for abi_entry in abi: ... else: raise` loop. */
  method SearchAbi(sn: Starknet, inputs: seq<int>, abi: seq<PyDict>, name: PyValue) returns (r: Result<nat, Exception>)
    ensures r == ValidatedEntry(sn, inputs, abi, name)
  {
    var i := 0;
    while i < |abi|
      invariant 0 <= i <= |abi|
      invariant forall j :: 0 <= j < i ==> IsMatch(abi[j], name) == Ok(false)
    {
      var m := IsMatch(abi[i], name);
      FindFunctionUnique(abi, name, i);
      if m.Err? {
        return Err(m.error);
      }
      if m.value {
        var valid := sn.validateArguments(inputs, abi[i], abi);
        if valid.Fail? {
          return Err(valid.error);
        }
        return Ok(i);
      }
      i := i + 1;
    }
    FindFunctionUnique(abi, name, i);
    return Err(NotFound(name));
  }

  /** Everything call_starknet_run settles before it talks to a gateway. */
  datatype Prepared = Prepared(attrs: map<Attr, PyValue>, tx: InvokeFunction)

  function Prepare(sn: Starknet, data: map<string, Scalar>): (r: Result<Prepared, Exception>)
    ensures r.Ok? ==> Complete(r.value.attrs)
    ensures r.Ok? ==> InvokeParamsFrom(data).Ok?
    ensures r.Ok? ==> forall a :: a in r.value.attrs && a != GatewayUrl && a != FeederGatewayUrl
                         ==> r.value.attrs[a] == InvokeParamsFrom(data).value[a]
    ensures r.Ok? ==> LoadAbi(sn, InvokeParamsFrom(data).value[Abi]).Ok?
    ensures r.Ok? ==> ParseAddress(InvokeParamsFrom(data).value[Address]).Ok?
    ensures r.Ok? ==> r.value.tx.contractAddress == ParseAddress(InvokeParamsFrom(data).value[Address]).value
    ensures r.Ok? ==> sn.checkTransaction(r.value.tx).Pass?
  {
    var attrs :- InvokeParamsFrom(data);
    var inputs :- sn.parseInputs(attrs[Inputs]);
    var signature :- sn.parseInputs(attrs[Signature]);
    var abi :- LoadAbi(sn, attrs[Abi]);
    var address :- ParseAddress(attrs[Address]);
    var _ :- ValidatedEntry(sn, inputs, abi, attrs[Function]);
    var selector :- sn.selectorFromName(attrs[Function]);
    var urls :- sn.handleNetwork(attrs);
    var tx := InvokeFunction(address, selector, inputs, signature);
    match sn.checkTransaction(tx)
    case Fail(e) => Err(e)
    case Pass => Ok(Prepared(attrs[GatewayUrl := urls.0][FeederGatewayUrl := urls.1], tx))
  }

  /** A prepared request passed validate_arguments on the ABI entry of its
      function, and its transaction carries the function's selector, the
      parsed inputs as calldata and the parsed signature. */
  lemma PreparedTransaction(sn: Starknet, data: map<string, Scalar>)
    requires Prepare(sn, data).Ok?
    ensures var attrs := InvokeParamsFrom(data).value;
            var tx := Prepare(sn, data).value.tx;
            && sn.parseInputs(attrs[Inputs]).Ok?
            && sn.parseInputs(attrs[Signature]).Ok?
            && sn.selectorFromName(attrs[Function]).Ok?
            && ValidatedEntry(sn, sn.parseInputs(attrs[Inputs]).value, LoadAbi(sn, attrs[Abi]).value, attrs[Function]).Ok?
            && tx.entryPointSelector == sn.selectorFromName(attrs[Function]).value
            && tx.calldata == sn.parseInputs(attrs[Inputs]).value
            && tx.signature == sn.parseInputs(attrs[Signature]).value
  {
    var attrs := InvokeParamsFrom(data).value;
    var inputs := sn.parseInputs(attrs[Inputs]);
    var signature := sn.parseInputs(attrs[Signature]);
    assert inputs.Ok? && signature.Ok?;
    var abi := LoadAbi(sn, attrs[Abi]);
    var address := ParseAddress(attrs[Address]);
    assert abi.Ok? && address.Ok?;
    assert ValidatedEntry(sn, inputs.value, abi.value, attrs[Function]).Ok?;
    var selector := sn.selectorFromName(attrs[Function]);
    assert selector.Ok? && sn.handleNetwork(attrs).Ok?;
    assert Prepare(sn, data).value.tx == InvokeFunction(address.value, selector.value, inputs.value, signature.value);
  }

  /** The gateway round trip: a read through the feeder gateway, or a write
      through the gateway. */
  function Submit(sn: Starknet, call: bool, attrs: map<Attr, PyValue>, tx: InvokeFunction): Result<seq<PyValue>, Exception>
    requires Complete(attrs)
  {
    if call then
      ReadResult(FeederGatewayClientWrapper(attrs).CallContract(sn.gateways, tx, attrs[BlockHash], attrs[BlockNumber]))
    else
      WriteResult(GatewayClientWrapper(attrs).AddTransaction(sn.gateways, tx))
  }

  /** `call_starknet_run(params_dict)` */
  function StarknetRun(sn: Starknet, data: map<string, Scalar>): Result<seq<PyValue>, Exception> {
    var p :- Prepare(sn, data);
    Submit(sn, IsCall(p.attrs), p.attrs, p.tx)
  }

  /** The preparation, on an InvokeParams object. */
  method PrepareParams(sn: Starknet, data: map<string, Scalar>) returns (r: Result<(InvokeParams, InvokeFunction), Exception>)
    ensures r.Err? ==> Prepare(sn, data) == Err(r.error)
    ensures r.Ok? ==> Prepare(sn, data) == Ok(Prepared(r.value.0.attrs, r.value.1))
  {
    var params :- InvokeParams.New(data);
    var inputs :- sn.parseInputs(params.attrs[Inputs]);
    var signature :- sn.parseInputs(params.attrs[Signature]);
    var abi :- LoadAbi(sn, params.attrs[Abi]);
    var address :- ParseAddress(params.attrs[Address]);
    var _ :- SearchAbi(sn, inputs, abi, params.attrs[Function]);
    var selector :- sn.selectorFromName(params.attrs[Function]);
    var urls :- sn.handleNetwork(params.attrs);
    params.SetGatewayUrls(urls.0, urls.1);
    var tx := InvokeFunction(address, selector, inputs, signature);
    :- sn.checkTransaction(tx);
    return Ok((params, tx));
  }

  /** `call_starknet_run(params_dict)`, on an InvokeParams object. */
  method CallStarknetRun(sn: Starknet, data: map<string, Scalar>) returns (r: Result<seq<PyValue>, Exception>)
    ensures r == StarknetRun(sn, data)
  {
    var prepared :- PrepareParams(sn, data);
    var (params, tx) := prepared;
    var call := params.attrs[Type] != PStr("invoke");
    var result: seq<PyValue>;
    if call {
      var feederClient := FeederGatewayClientWrapper(params.attrs);
      var gatewayResponse :- feederClient.CallContract(sn.gateways, tx, params.attrs[BlockHash], params.attrs[BlockNumber]);
      var value :- DictGet(gatewayResponse, "result");
      result := [value];
    } else {
      var gatewayClient := GatewayClientWrapper(params.attrs);
      var gatewayResponse :- gatewayClient.AddTransaction(sn.gateways, tx);
      var code :- DictGet(gatewayResponse, "code");
      if code != PStr(TRANSACTION_RECEIVED) {
        return Err(Exception("AssertionError", "Failed to send transaction. Response: " + DictRepr(gatewayResponse) + "."));
      }
      var hash :- DictGet(gatewayResponse, "transaction_hash");
      result := [code, hash];
    }
    return Ok(result);
  }

  /** Whether the decoded parameters ask for a write: type "invoke". */
  predicate IsInvoke(data: map<string, Scalar>) {
    "type" in data && data["type"] == Str("invoke")
  }

  /** An attribute of the prepared request other than the gateway URLs:
      the decoded parameter of that name, or the class default. */
  lemma PreparedAttribute(sn: Starknet, data: map<string, Scalar>, a: Attr)
    requires Prepare(sn, data).Ok?
    requires !IsListAttr(a) && a != GatewayUrl && a != FeederGatewayUrl
    ensures Prepare(sn, data).value.attrs[a] == if Name(a) in data then data[Name(a)].ToPy() else Default(a)
  {
    AttributeOf(data, a);
  }

  /** The gateway round trip answers one value for a read, and the received
      code and the transaction hash for a write. */
  lemma SubmitShape(sn: Starknet, call: bool, attrs: map<Attr, PyValue>, tx: InvokeFunction)
    requires Complete(attrs)
    requires Submit(sn, call, attrs, tx).Ok?
    ensures call ==> |Submit(sn, call, attrs, tx).value| == 1
    ensures !call ==> |Submit(sn, call, attrs, tx).value| == 2 && Submit(sn, call, attrs, tx).value[0] == PStr(TRANSACTION_RECEIVED)
  {
  }

  /** With `testing` truthy the stand-in gateway answers: the call result 1
      for a read, the received code and the hash 2 for a write. */
  lemma SubmitToMockGateway(sn: Starknet, call: bool, attrs: map<Attr, PyValue>, tx: InvokeFunction)
    requires Complete(attrs) && Truthy(attrs[Testing])
    ensures Submit(sn, call, attrs, tx) ==
      Ok(if call then [PInt(CALL_RESULT)] else [PStr(TRANSACTION_RECEIVED), PInt(INVOKE_RESULT)])
  {
    if call {
      assert FeederGatewayClientWrapper(attrs) == MockGateway;
    } else {
      var d := [("code", PStr(TRANSACTION_RECEIVED)), ("transaction_hash", PInt(INVOKE_RESULT))];
      assert GatewayClientWrapper(attrs).AddTransaction(sn.gateways, tx) == Ok(d);
      assert DictGet(d, "code") == Ok(PStr(TRANSACTION_RECEIVED));
      assert DictGet(d, "transaction_hash") == Ok(PInt(INVOKE_RESULT));
    }
  }

  /** A request succeeds only with an explicit, non-empty ABI and with an
      address that starts with "0x" followed by hexadecimal digits. */
  lemma StarknetRunNeedsAbiAndAddress(sn: Starknet, data: map<string, Scalar>)
    requires StarknetRun(sn, data).Ok?
    ensures "abi" in data && data["abi"].Str? && data["abi"].s != ""
    ensures "address" in data && data["address"].Str?
    ensures StartsWith(data["address"].s, "0x") && ParseHexAddress(data["address"].s).Some?
  {
    RunIsPrepared(sn, data);
    var attrs := InvokeParamsFrom(data).value;
    AttributeOf(data, Abi);
    AttributeOf(data, Address);
  }

  /** Only a prepared request reaches a gateway. */
  lemma RunIsPrepared(sn: Starknet, data: map<string, Scalar>)
    requires StarknetRun(sn, data).Ok?
    ensures Prepare(sn, data).Ok?
    ensures LoadAbi(sn, InvokeParamsFrom(data).value[Abi]).Ok?
    ensures ParseAddress(InvokeParamsFrom(data).value[Address]).Ok?
  {
  }

  /** Without an "abi" parameter the request fails at `json.loads` of the
      empty default, whatever the ABI, network and gateway would have done. */
  lemma MissingAbiFails(sn: Starknet, data: map<string, Scalar>)
    requires "abi" !in data && !HasUnsplittable(data)
    requires sn.parseInputs(InvokeParamsFrom(data).value[Inputs]).Ok?
    requires sn.parseInputs(InvokeParamsFrom(data).value[Signature]).Ok?
    ensures StarknetRun(sn, data) == Err(EMPTY_JSON_ERROR)
  {
    AttributeOf(data, Abi);
  }

  /** An address str without the "0x" prefix fails the assertion, naming the
      address, once the parameters, inputs, signature and ABI have been
      read; no gateway is asked, whatever the gateways would answer. */
  lemma AddressWithoutPrefixFails(sn: Starknet, data: map<string, Scalar>, g: Gateways)
    requires !HasUnsplittable(data)
    requires sn.parseInputs(InvokeParamsFrom(data).value[Inputs]).Ok?
    requires sn.parseInputs(InvokeParamsFrom(data).value[Signature]).Ok?
    requires LoadAbi(sn, InvokeParamsFrom(data).value[Abi]).Ok?
    requires "address" in data && data["address"].Str? && !StartsWith(data["address"].s, "0x")
    ensures Prepare(sn, data).Err?
    ensures StarknetRun(sn, data)
            == StarknetRun(sn.(gateways := g), data)
            == Err(Exception("AssertionError", "The address must start with '0x'. Got: " + data["address"].s + "."))
  {
    AttributeOf(data, Address);
    assert sn.(gateways := g).parseInputs == sn.parseInputs;
    assert LoadAbi(sn.(gateways := g), InvokeParamsFrom(data).value[Abi]) == LoadAbi(sn, InvokeParamsFrom(data).value[Abi]);
  }

  /** When no entry of the ABI is the named function, the for loop's `else`
      raises "Function X not found." after the address has been parsed; no
      gateway is asked, whatever the gateways would answer. */
  lemma FunctionNotFoundFails(sn: Starknet, data: map<string, Scalar>, g: Gateways)
    requires !HasUnsplittable(data)
    requires sn.parseInputs(InvokeParamsFrom(data).value[Inputs]).Ok?
    requires sn.parseInputs(InvokeParamsFrom(data).value[Signature]).Ok?
    requires LoadAbi(sn, InvokeParamsFrom(data).value[Abi]).Ok?
    requires ParseAddress(InvokeParamsFrom(data).value[Address]).Ok?
    requires var abi := LoadAbi(sn, InvokeParamsFrom(data).value[Abi]).value;
             forall j :: 0 <= j < |abi| ==> IsMatch(abi[j], InvokeParamsFrom(data).value[Function]) == Ok(false)
    ensures Prepare(sn, data).Err?
    ensures StarknetRun(sn, data)
            == StarknetRun(sn.(gateways := g), data)
            == Err(NotFound(InvokeParamsFrom(data).value[Function]))
  {
    var attrs := InvokeParamsFrom(data).value;
    var abi := LoadAbi(sn, attrs[Abi]).value;
    FindFunctionUnique(abi, attrs[Function], |abi|);
    assert sn.(gateways := g).parseInputs == sn.parseInputs;
    assert LoadAbi(sn.(gateways := g), attrs[Abi]) == LoadAbi(sn, attrs[Abi]);
  }

  /** The request's type decides between a read and a write. */
  lemma IsCallOfPrepared(sn: Starknet, data: map<string, Scalar>)
    requires Prepare(sn, data).Ok?
    ensures IsCall(Prepare(sn, data).value.attrs) <==> !IsInvoke(data)
    ensures StarknetRun(sn, data) == Submit(sn, !IsInvoke(data), Prepare(sn, data).value.attrs, Prepare(sn, data).value.tx)
  {
    PreparedIsCall(sn, data);
    var p := Prepare(sn, data).value;
    assert StarknetRun(sn, data) == Submit(sn, IsCall(p.attrs), p.attrs, p.tx);
  }

  /** The prepared request is a read exactly when the type parameter is not "invoke". */
  lemma PreparedIsCall(sn: Starknet, data: map<string, Scalar>)
    requires Prepare(sn, data).Ok?
    ensures IsCall(Prepare(sn, data).value.attrs) <==> !IsInvoke(data)
  {
    PreparedAttribute(sn, data, Type);
    TypeIsInvoke(data);
  }

  /** The decoded "type" parameter, or its default, is "invoke" exactly when the
      request carries the string "invoke". */
  lemma TypeIsInvoke(data: map<string, Scalar>)
    ensures (if Name(Type) in data then data[Name(Type)].ToPy() else Default(Type)) == PStr("invoke")
            <==> IsInvoke(data)
  {
    if "type" in data {
      assert data["type"].ToPy() == PStr("invoke") <==> data["type"] == Str("invoke");
    }
  }

  /** A read answers one value, a write the received code and the transaction hash. */
  lemma StarknetRunShape(sn: Starknet, data: map<string, Scalar>)
    requires StarknetRun(sn, data).Ok?
    ensures IsInvoke(data) ==> |StarknetRun(sn, data).value| == 2 && StarknetRun(sn, data).value[0] == PStr(TRANSACTION_RECEIVED)
    ensures !IsInvoke(data) ==> |StarknetRun(sn, data).value| == 1
  {
    assert Prepare(sn, data).Ok?;
    var p := Prepare(sn, data).value;
    IsCallOfPrepared(sn, data);
    SubmitShape(sn, !IsInvoke(data), p.attrs, p.tx);
  }

  /** With `testing` set, a prepared request is answered by the stand-in
      gateway: the call result 1 for a read, the received code and hash 2 for a write. */
  lemma StarknetRunWithMockGateway(sn: Starknet, data: map<string, Scalar>)
    requires Prepare(sn, data).Ok?
    requires "testing" in data && Truthy(data["testing"].ToPy())
    ensures StarknetRun(sn, data) == Ok(
      if IsInvoke(data) then [PStr(TRANSACTION_RECEIVED), PInt(INVOKE_RESULT)] else [PInt(CALL_RESULT)])
  {
    IsCallOfPrepared(sn, data);
    PreparedSubmitToMockGateway(sn, data);
  }

  /** The prepared request carries the truthy `testing` flag of the request,
      so its submission goes to the stand-in gateway. */
  lemma PreparedSubmitToMockGateway(sn: Starknet, data: map<string, Scalar>)
    requires Prepare(sn, data).Ok?
    requires "testing" in data && Truthy(data["testing"].ToPy())
    ensures var p := Prepare(sn, data).value;
      Submit(sn, !IsInvoke(data), p.attrs, p.tx) ==
      Ok(if IsInvoke(data) then [PStr(TRANSACTION_RECEIVED), PInt(INVOKE_RESULT)] else [PInt(CALL_RESULT)])
  {
    var p := Prepare(sn, data).value;
    SubmitWithTestingFlag(sn, !IsInvoke(data), p.attrs, p.tx, data);
  }

  /** Attributes that keep the request's truthy `testing` flag go to the stand-in gateway. */
  lemma SubmitWithTestingFlag(sn: Starknet, call: bool, attrs: map<Attr, PyValue>, tx: InvokeFunction,
                              data: map<string, Scalar>)
    requires Complete(attrs) && InvokeParamsFrom(data).Ok?
    requires attrs[Testing] == InvokeParamsFrom(data).value[Testing]
    requires "testing" in data && Truthy(data["testing"].ToPy())
    ensures Submit(sn, call, attrs, tx) ==
      Ok(if call then [PInt(CALL_RESULT)] else [PStr(TRANSACTION_RECEIVED), PInt(INVOKE_RESULT)])
  {
    AttributeOf(data, Testing);
    assert Name(Testing) == "testing";
    SubmitToMockGateway(sn, call, attrs, tx);
  }
}
