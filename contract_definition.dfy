/** A StarkNet contract definition: a compiled Cairo program, its entry points
    grouped by type, and an optional ABI. Construction checks the entry points;
    `validate` checks the builtins and the field prime; `remove_debug_info`
    drops the program's debug information. */
module ContractDefinitions {
  import opened Wrappers
  import opened Python
  import opened ErrorHandling

  /** The supported builtins, in the order a program must list them. */
  const SUPPORTED_BUILTINS: seq<string> := ["pedersen", "range_check", "ecdsa", "bitwise"]

  /** 2^251 + 17 * 2^192 + 1 */
  const DEFAULT_PRIME: int := 0x800000000000011000000000000000000000000000000000000000000000001

  const UNSORTED_MESSAGE: string := "Entry points must be unique and sorted."
  const MISSING_CONSTRUCTOR_MESSAGE: string := "The contract is missing constructor endpoints. Wrong compiler version?"
  const CONSTRUCTORS_MESSAGE: string := "A contract may have at most 1 constructor."

  datatype EntryPointType = External | L1Handler | Constructor

  datatype ContractEntryPoint = ContractEntryPoint(selector: int, offset: int)

  /** The program's debug information: source locations of instructions and file contents. */
  datatype DebugInfo = DebugInfo(instructionLocations: map<nat, string>, fileContents: map<string, string>)

  /** A compiled Cairo program: the field prime, the bytecode, the builtins it
      uses, its main scope and its optional debug information. */
  datatype Program = Program(prime: int, data: seq<int>, builtins: seq<string>, mainScope: string, debugInfo: Option<DebugInfo>)

  datatype ContractDefinition = ContractDefinition(
    program: Program,
    entryPointsByType: map<EntryPointType, seq<ContractEntryPoint>>,
    abi: Option<seq<PyValue>>)

  // ---------------------------------------------------------------------------
  // Entry points

  /** `all(eps[i].selector < eps[i + 1].selector for i in range(len(eps) - 1))` */
  predicate StrictlyIncreasing(eps: seq<ContractEntryPoint>) {
    forall i :: 0 <= i < |eps| - 1 ==> eps[i].selector < eps[i + 1].selector
  }

  predicate SortedSelectors(eps: seq<ContractEntryPoint>) {
    forall i, j :: 0 <= i < j < |eps| ==> eps[i].selector <= eps[j].selector
  }

  predicate UniqueSelectors(eps: seq<ContractEntryPoint>) {
    forall i, j :: 0 <= i < j < |eps| ==> eps[i].selector != eps[j].selector
  }

  lemma {:induction false} IncreasingUpTo(eps: seq<ContractEntryPoint>, i: nat, j: nat)
    requires StrictlyIncreasing(eps) && i < j < |eps|
    ensures eps[i].selector < eps[j].selector
  {
    if j > i + 1 {
      IncreasingUpTo(eps, i, j - 1);
    }
  }

  /** The adjacent check says exactly what its message says: the selectors
      are sorted and unique. Empty and one-element lists always pass. */
  lemma IncreasingIsSortedAndUnique(eps: seq<ContractEntryPoint>)
    ensures StrictlyIncreasing(eps) <==> SortedSelectors(eps) && UniqueSelectors(eps)
    ensures |eps| <= 1 ==> StrictlyIncreasing(eps)
  {
    if StrictlyIncreasing(eps) {
      forall i, j | 0 <= i < j < |eps|
        ensures eps[i].selector < eps[j].selector
      {
        IncreasingUpTo(eps, i, j);
      }
    }
  }

  /** What `__post_init__` demands of the entry points. */
  predicate EntryPointsValid(eps: map<EntryPointType, seq<ContractEntryPoint>>) {
    && (forall t :: t in eps ==> StrictlyIncreasing(eps[t]))
    && Constructor in eps
    && |eps[Constructor]| <= 1
  }

  /** `ContractDefinition(program, entry_points_by_type, abi)`, with the checks
      of `__post_init__` in their order, each failing with
      INVALID_CONTRACT_DEFINITION. */
  function NewContractDefinition(program: Program, eps: map<EntryPointType, seq<ContractEntryPoint>>, abi: Option<seq<PyValue>>)
    : (r: Result<ContractDefinition, StarkException>)
    ensures r.Ok? <==> EntryPointsValid(eps)
    ensures r.Ok? ==> r.value == ContractDefinition(program, eps, abi)
    ensures r.Err? ==> r.error.code == INVALID_CONTRACT_DEFINITION
    ensures r.Err? ==>
              (r.error.message == UNSORTED_MESSAGE <==> exists t :: t in eps && !StrictlyIncreasing(eps[t]))
    ensures r.Err? && Constructor !in eps ==>
              r.error.message in {UNSORTED_MESSAGE, MISSING_CONSTRUCTOR_MESSAGE}
    ensures r.Err? && (forall t :: t in eps ==> StrictlyIncreasing(eps[t])) ==>
              r.error.message == if Constructor in eps then CONSTRUCTORS_MESSAGE else MISSING_CONSTRUCTOR_MESSAGE
  {
    if exists t :: t in eps && !StrictlyIncreasing(eps[t]) then
      Err(StarkException(INVALID_CONTRACT_DEFINITION, UNSORTED_MESSAGE))
    else if Constructor !in eps then
      Err(StarkException(INVALID_CONTRACT_DEFINITION, MISSING_CONSTRUCTOR_MESSAGE))
    else if |eps[Constructor]| > 1 then
      Err(StarkException(INVALID_CONTRACT_DEFINITION, CONSTRUCTORS_MESSAGE))
    else
      Ok(ContractDefinition(program, eps, abi))
  }

  // ---------------------------------------------------------------------------
  // Builtins

  /** `is_subsequence(sub, s)`: a greedy left-to-right match. */
  function IsSubsequence(sub: seq<string>, s: seq<string>): bool {
    if sub == [] then true
    else if s == [] then false
    else if s[0] == sub[0] then IsSubsequence(sub[1..], s[1..])
    else IsSubsequence(sub, s[1..])
  }

  /** `idx` places each element of `sub` at an increasing position of `s`. */
  predicate Embedding(sub: seq<string>, s: seq<string>, idx: seq<int>) {
    && |idx| == |sub|
    && (forall k :: 0 <= k < |idx| ==> 0 <= idx[k] < |s| && s[idx[k]] == sub[k])
    && (forall i, j :: 0 <= i < j < |idx| ==> idx[i] < idx[j])
  }

  function Shift(idx: seq<int>, d: int): (r: seq<int>)
    ensures |r| == |idx| && forall k :: 0 <= k < |idx| ==> r[k] == idx[k] + d
  {
    seq(|idx|, k requires 0 <= k < |idx| => idx[k] + d)
  }

  /** A greedy match finds an embedding. */
  lemma {:induction false} SubsequenceEmbeds(sub: seq<string>, s: seq<string>) returns (idx: seq<int>)
    requires IsSubsequence(sub, s)
    ensures Embedding(sub, s, idx)
    decreases |s|
  {
    if sub == [] {
      idx := [];
    } else if s[0] == sub[0] {
      var rest := SubsequenceEmbeds(sub[1..], s[1..]);
      idx := [0] + Shift(rest, 1);
    } else {
      var rest := SubsequenceEmbeds(sub, s[1..]);
      idx := Shift(rest, 1);
    }
  }

  /** Wherever an embedding exists, the greedy match succeeds. */
  lemma {:induction false} EmbeddingIsSubsequence(sub: seq<string>, s: seq<string>, idx: seq<int>)
    requires Embedding(sub, s, idx)
    ensures IsSubsequence(sub, s)
    decreases |s|
  {
    if sub != [] {
      assert 0 <= idx[0] < |s|;
      if s[0] == sub[0] {
        if |sub| > 1 {
          assert idx[1] > idx[0] >= 0;
        }
        EmbeddingIsSubsequence(sub[1..], s[1..], Shift(idx[1..], -1));
      } else {
        assert idx[0] != 0;
        EmbeddingIsSubsequence(sub, s[1..], Shift(idx, -1));
      }
    }
  }

  /** The greedy test is exactly the order-preserving subsequence relation. */
  lemma SubsequenceIff(sub: seq<string>, s: seq<string>)
    ensures IsSubsequence(sub, s) <==> exists idx :: Embedding(sub, s, idx)
  {
    if IsSubsequence(sub, s) {
      var idx := SubsequenceEmbeds(sub, s);
    }
    if exists idx :: Embedding(sub, s, idx) {
      var idx :| Embedding(sub, s, idx);
      EmbeddingIsSubsequence(sub, s, idx);
    }
  }

  predicate Distinct(s: seq<string>) {
    forall p, q :: 0 <= p < q < |s| ==> s[p] != s[q]
  }

  /** A subsequence of a list without repeats has no repeats, takes its
      elements from the list, is no longer, and keeps the list's order. */
  lemma SubsequenceOfDistinct(sub: seq<string>, s: seq<string>)
    requires IsSubsequence(sub, s) && Distinct(s)
    ensures |sub| <= |s| && Distinct(sub)
    ensures forall k :: 0 <= k < |sub| ==> sub[k] in s
    ensures forall i, j, a, b ::
              (0 <= i < j < |sub| && 0 <= a < |s| && 0 <= b < |s| && sub[i] == s[a] && sub[j] == s[b]) ==> a < b
  {
    var idx := SubsequenceEmbeds(sub, s);
    IncreasingImage(idx, |s|);
    forall k | 0 <= k < |sub|
      ensures sub[k] in s
    {
      assert s[idx[k]] == sub[k];
    }
    forall i, j, a, b | 0 <= i < j < |sub| && 0 <= a < |s| && 0 <= b < |s| && sub[i] == s[a] && sub[j] == s[b]
      ensures a < b
    {
      assert s[idx[i]] == s[a] && s[idx[j]] == s[b];
    }
  }

  /** Builtins that pass `validate` are supported builtins, none repeated, at
      most four, listed in the supported order. */
  lemma AcceptedBuiltins(builtins: seq<string>)
    requires IsSubsequence(builtins, SUPPORTED_BUILTINS)
    ensures |builtins| <= 4 && Distinct(builtins)
    ensures forall k :: 0 <= k < |builtins| ==> builtins[k] in SUPPORTED_BUILTINS
    ensures forall i, j, a, b ::
              (0 <= i < j < |builtins| && 0 <= a < 4 && 0 <= b < 4
               && builtins[i] == SUPPORTED_BUILTINS[a] && builtins[j] == SUPPORTED_BUILTINS[b]) ==> a < b
  {
    SupportedBuiltinsDistinct();
    SubsequenceOfDistinct(builtins, SUPPORTED_BUILTINS);
  }

  /** The four supported builtins differ already in their first letters. */
  lemma SupportedBuiltinsDistinct()
    ensures |SUPPORTED_BUILTINS| == 4 && Distinct(SUPPORTED_BUILTINS)
  {
    var firsts := seq(4, k requires 0 <= k < 4 => SUPPORTED_BUILTINS[k][0]);
    assert firsts == ['p', 'r', 'e', 'b'];
    forall p, q | 0 <= p < q < 4
      ensures SUPPORTED_BUILTINS[p] != SUPPORTED_BUILTINS[q]
    {
      assert firsts[p] != firsts[q];
    }
  }

  /** Strictly increasing positions below n number at most n. */
  lemma {:induction false} IncreasingImage(idx: seq<int>, n: nat)
    requires forall k :: 0 <= k < |idx| ==> 0 <= idx[k] < n
    requires forall i, j :: 0 <= i < j < |idx| ==> idx[i] < idx[j]
    ensures |idx| <= n
  {
    if idx != [] {
      var last := idx[|idx| - 1];
      IncreasingImage(idx[..|idx| - 1], last);
    }
  }

  // ---------------------------------------------------------------------------
  // validate and remove_debug_info

  /** `validate()`: the builtins must be a subsequence of the supported list
      (INVALID_CONTRACT_DEFINITION), then the prime must be the default one
      (SECURITY_ERROR). */
  function Validate(c: ContractDefinition): (r: Outcome<StarkException>)
    ensures r.Pass? <==> IsSubsequence(c.program.builtins, SUPPORTED_BUILTINS) && c.program.prime == DEFAULT_PRIME
    ensures r.Fail? && !IsSubsequence(c.program.builtins, SUPPORTED_BUILTINS) ==> r.error.code == INVALID_CONTRACT_DEFINITION
    ensures r.Fail? && IsSubsequence(c.program.builtins, SUPPORTED_BUILTINS) ==> r.error.code == SECURITY_ERROR
  {
    if !IsSubsequence(c.program.builtins, SUPPORTED_BUILTINS) then
      Fail(StarkException(INVALID_CONTRACT_DEFINITION,
        "[" + ReprStrings(c.program.builtins) + "] is not a subsequence of [" + ReprStrings(SUPPORTED_BUILTINS) + "]."))
    else
      StarkAssert(c.program.prime == DEFAULT_PRIME, SECURITY_ERROR,
        "Invalid value for field prime: " + IntToString(c.program.prime) + ". Expected: " + IntToString(DEFAULT_PRIME) + ".")
  }

  /** `remove_debug_info()`: a new definition whose program has no debug
      information and which agrees with the old one in everything else. Both
      replacements rebuild their objects, so the entry-point checks run again. */
  function RemoveDebugInfo(c: ContractDefinition): (r: Result<ContractDefinition, StarkException>)
    ensures r.Ok? <==> EntryPointsValid(c.entryPointsByType)
    ensures r.Ok? ==> r.value.program.debugInfo.None?
    ensures r.Ok? ==> r.value.program.prime == c.program.prime && r.value.program.data == c.program.data
                      && r.value.program.builtins == c.program.builtins && r.value.program.mainScope == c.program.mainScope
    ensures r.Ok? ==> r.value.entryPointsByType == c.entryPointsByType && r.value.abi == c.abi
  {
    var alteredProgram := c.program.(debugInfo := None);
    NewContractDefinition(alteredProgram, c.entryPointsByType, c.abi)
  }

  /** Removing debug information twice is removing it once, and it changes
      neither the outcome of `validate` nor the entry-point checks. */
  lemma RemoveDebugInfoIdempotent(c: ContractDefinition)
    requires EntryPointsValid(c.entryPointsByType)
    ensures RemoveDebugInfo(c).Ok?
    ensures RemoveDebugInfo(RemoveDebugInfo(c).value) == RemoveDebugInfo(c)
    ensures Validate(RemoveDebugInfo(c).value) == Validate(c)
  {
  }
}
