/** The basecalling backend wrapper `ModelInfo`: construction from a model
    specification (backend choice, its checks, alphabet resolution and the
    process-to-device split) and `run_model`, which dispatches a signal to
    the chosen backend and optionally splits the output columns. The
    foreign runtimes (`flappy`, `taiyaki`, `torch`) are inputs: the final
    layer of a loaded taiyaki model, the categorical-modification
    description that compiled flappie models report, and the outcome of an
    inference call. */
module Backends {
  import opened Wrappers
  import opened Seqs
  import opened MegalodonHelper
  import opened AlphabetResolution
  import opened DeviceSplit

  const TAI_NAME: string := "taiyaki"
  const FLP_NAME: string := "flappie"

  const CAN_ALPHABET: string := "ACGT"

  /** `string.ascii_uppercase`: the letters A to Z. */
  const UPPERCASE: string := seq(26, i requires 0 <= i < 26 => (65 + i) as char)

  /** The symbols of s that are not in `excluded`, in order. */
  function Without(s: string, excluded: string): (r: string)
    ensures |r| <= |s|
    ensures forall i | 0 <= i < |r| :: r[i] in s && r[i] !in excluded
  {
    if s == [] then []
    else
      var rest := Without(s[1..], excluded);
      assert forall i | 0 <= i < |rest| :: rest[i] in s by {
        forall i | 0 <= i < |rest|
          ensures rest[i] in s
        {
          assert rest[i] in s[1..];
        }
      }
      if s[0] in excluded then rest else [s[0]] + rest
  }

  /** The canonical bases followed by every other uppercase letter, from Z
      down to B. */
  const MOD_ALPHABET: string := CAN_ALPHABET + Without(Reverse(UPPERCASE), CAN_ALPHABET)

  predicate Descending(s: string)
  {
    forall i, j | 0 <= i < j < |s| :: s[i] > s[j]
  }

  /** `Without` drops only excluded symbols. */
  lemma {:induction false} WithoutKeeps(s: string, excluded: string, c: char)
    requires c in s && c !in excluded
    ensures c in Without(s, excluded)
  {
    if s[0] != c {
      assert c in s[1..];
      WithoutKeeps(s[1..], excluded, c);
    }
  }

  /** `Without` keeps the order of what it keeps. */
  lemma {:induction false} WithoutDescending(s: string, excluded: string)
    requires Descending(s)
    ensures Descending(Without(s, excluded))
  {
    if s != [] {
      WithoutDescending(s[1..], excluded);
      var rest := Without(s[1..], excluded);
      forall i | 0 <= i < |rest|
        ensures s[0] > rest[i]
      {
        var k :| 0 <= k < |s[1..]| && s[1..][k] == rest[i];
        assert s[k + 1] == rest[i];
      }
    }
  }

  /** A sequence without repetitions has as many distinct elements as it is
      long. */
  lemma {:induction false} DistinctCard(s: string)
    requires Distinct(s)
    ensures |set x | x in s| == |s|
  {
    if s != [] {
      DistinctCard(s[1..]);
      var tail := set x | x in s[1..];
      assert (set x | x in s) == tail + {s[0]};
      forall k | 0 <= k < |s[1..]|
        ensures s[1..][k] != s[0]
      {
        assert s[k + 1] != s[0];
      }
      assert s[0] !in tail;
    }
  }

  lemma ReversedUppercaseDescending()
    ensures Descending(Reverse(UPPERCASE))
  {
    var rev := Reverse(UPPERCASE);
    forall i, j | 0 <= i < j < |rev|
      ensures rev[i] > rev[j]
    {
      assert rev[i] == UPPERCASE[25 - i] && rev[j] == UPPERCASE[25 - j];
    }
  }

  lemma UppercaseDistinct()
    ensures Distinct(UPPERCASE)
  {
    forall a, b | 0 <= a < b < 26
      ensures UPPERCASE[a] != UPPERCASE[b]
    {
      assert UPPERCASE[a] as int == 65 + a && UPPERCASE[b] as int == 65 + b;
    }
  }

  /** The letters of `MOD_ALPHABET` are exactly the uppercase letters. */
  lemma ModAlphabetLetters(c: char)
    ensures c in MOD_ALPHABET <==> c in UPPERCASE
  {
    var rev := Reverse(UPPERCASE);
    var tail := Without(rev, CAN_ALPHABET);
    assert MOD_ALPHABET == CAN_ALPHABET + tail;
    if c in UPPERCASE {
      var k :| 0 <= k < 26 && UPPERCASE[k] == c;
      if c in CAN_ALPHABET {
        assert c in MOD_ALPHABET[..4];
      } else {
        assert rev[25 - k] == c;
        WithoutKeeps(rev, CAN_ALPHABET, c);
        assert c in MOD_ALPHABET[4..];
      }
    }
    if c in MOD_ALPHABET {
      var k :| 0 <= k < |MOD_ALPHABET| && MOD_ALPHABET[k] == c;
      if k < 4 {
        assert CAN_ALPHABET[k] == c;
        assert c == UPPERCASE[c as int - 65];
      } else {
        assert tail[k - 4] == c;
        var m :| 0 <= m < |rev| && rev[m] == c;
        assert UPPERCASE[25 - m] == c;
      }
    }
  }

  /** `MOD_ALPHABET` is A, C, G, T followed by the other 22 uppercase letters
      from Z down: each of the 26 letters exactly once. */
  lemma ModAlphabetShape()
    ensures MOD_ALPHABET[..4] == CAN_ALPHABET
    ensures Descending(MOD_ALPHABET[4..])
    ensures forall i | 4 <= i < |MOD_ALPHABET| :: MOD_ALPHABET[i] !in CAN_ALPHABET
    ensures forall c :: c in MOD_ALPHABET <==> c in UPPERCASE
    ensures Distinct(MOD_ALPHABET)
    ensures |MOD_ALPHABET| == 26
  {
    var tail := Without(Reverse(UPPERCASE), CAN_ALPHABET);
    assert MOD_ALPHABET[4..] == tail;
    ReversedUppercaseDescending();
    WithoutDescending(Reverse(UPPERCASE), CAN_ALPHABET);
    forall c
      ensures c in MOD_ALPHABET <==> c in UPPERCASE
    {
      ModAlphabetLetters(c);
    }
    forall a, b | 0 <= a < b < |MOD_ALPHABET|
      ensures MOD_ALPHABET[a] != MOD_ALPHABET[b]
    {
      if b < 4 {
        assert CAN_ALPHABET[a] != CAN_ALPHABET[b];
      } else if a < 4 {
        assert MOD_ALPHABET[a] in CAN_ALPHABET && tail[b - 4] !in CAN_ALPHABET;
      } else {
        assert tail[a - 4] > tail[b - 4];
      }
    }
    UppercaseDistinct();
    DistinctCard(MOD_ALPHABET);
    DistinctCard(UPPERCASE);
    assert (set x | x in MOD_ALPHABET) == (set x | x in UPPERCASE);
  }

  const NAIVE_MOD_MSG: string := "Naive modified base flip-flop models are not supported."
  const CHUNK_MSG: string :=
    "Must provide chunk_size, chunk_overlap, max_concur_chunks in order to run the taiyaki base calling backend."
  const INVALID_SPEC_MSG: string := "Invalid model specification."
  const INVALID_TYPE_MSG: string := "Invalid model type."
  const INCOMPATIBLE_MSG: string := "Out of date or incompatible model"
  const OUT_OF_MEMORY_MSG: string := "Likely out of memory error."

  /** The compiled flappie model with categorical modifications, and the
      naive modified-base model that is refused. */
  const FLAPPIE_CAT_MOD: string := "r941_cat_mod"
  const FLAPPIE_NAIVE_MOD: string := "r941_5mC"

  /** The constructor's arguments; `None` stands for Python's `None`. */
  datatype ModelSpec = ModelSpec(
    flappieModelName: Option<string>,
    taiyakiModelFn: Option<string>,
    devices: Option<seq<int>>,
    numProc: nat,
    chunkSize: Option<nat>,
    chunkOverlap: Option<nat>,
    maxConcurChunks: Option<nat>)

  /** What `flappy.get_cat_mods()` reports for a categorical-modification
      model. */
  datatype CatMods = CatMods(canNmods: seq<nat>, alphabet: string)

  /** The final layer of a loaded taiyaki model: its output size, whether it
      is a categorical-modification flip-flop layer, and for such a layer
      its alphabet, modification counts and (short, long) modification
      names. */
  datatype FinalLayer = FinalLayer(
    size: nat,
    isCatMod: bool,
    outputAlphabet: string,
    canNmods: seq<nat>,
    modLongNames: seq<(string, string)>)

  /** `[(mod_b, mod_b) for mod_b in mod_bases]`; `FlappieModCount` proves
      that it has `sum(can_nmods)` entries. */
  function SelfNamed(modBases: string): (names: seq<(string, string)>)
    ensures |names| == |modBases|
    ensures forall i | 0 <= i < |names| :: names[i] == ([modBases[i]], [modBases[i]])
  {
    seq(|modBases|, i requires 0 <= i < |modBases| => ([modBases[i]], [modBases[i]]))
  }

  /** The exception `ModelInfo(...)` raises, if any, checked in the order
      the constructor meets the conditions. */
  function ConstructionError(spec: ModelSpec, catMods: CatMods, layer: FinalLayer): (r: Option<Exception>)
    ensures r == Some(MegaError(INVALID_SPEC_MSG)) <==> spec.flappieModelName.None? && spec.taiyakiModelFn.None?
    ensures r.None? && spec.flappieModelName.None? ==>
      && spec.taiyakiModelFn.Some? && spec.chunkSize.Some? && spec.chunkOverlap.Some? && spec.maxConcurChunks.Some?
      && spec.devices.Some? && spec.devices.value != []
    ensures r.None? && spec.flappieModelName.Some? ==> spec.flappieModelName.value != FLAPPIE_NAIVE_MOD
    ensures r.None? && spec.flappieModelName == Some(FLAPPIE_CAT_MOD) ==>
      IndicesInRange(catMods.canNmods, |catMods.alphabet|)
    ensures r.None? && spec.flappieModelName.None? ==>
      if layer.isCatMod then IndicesInRange(layer.canNmods, |layer.outputAlphabet|) else NStateToNBase(layer.size) == 4
  {
    if spec.flappieModelName.Some? then
      var name := spec.flappieModelName.value;
      if name == FLAPPIE_NAIVE_MOD then Some(NotImplementedError(NAIVE_MOD_MSG))
      else if name == FLAPPIE_CAT_MOD && !IndicesInRange(catMods.canNmods, |catMods.alphabet|) then Some(IndexError)
      else None
    else if spec.taiyakiModelFn.Some? then
      if spec.chunkSize.None? || spec.chunkOverlap.None? || spec.maxConcurChunks.None? then
        Some(NotImplementedError(CHUNK_MSG))
      else if spec.devices.None? then Some(TypeError)  // len(None)
      else if spec.devices.value == [] then Some(ZeroDivisionError)  // num_proc / 0
      else if layer.isCatMod && !IndicesInRange(layer.canNmods, |layer.outputAlphabet|) then Some(IndexError)
      else if !layer.isCatMod && NStateToNBase(layer.size) != 4 then Some(NotImplementedError(NAIVE_MOD_MSG))
      else None
    else Some(MegaError(INVALID_SPEC_MSG))
  }

  /** The alphabet symbols a model may use must be distinct for the two ways
      of telling canonical bases apart to agree. */
  predicate DistinctAlphabets(spec: ModelSpec, catMods: CatMods, layer: FinalLayer)
  {
    && (spec.flappieModelName == Some(FLAPPIE_CAT_MOD) ==> Distinct(catMods.alphabet))
    && (spec.flappieModelName.None? && spec.taiyakiModelFn.Some? && layer.isCatMod ==> Distinct(layer.outputAlphabet))
  }

  /** Each process is given a device, or `None` for the CPU; which device
      each process gets is stated by `ProcessDevicesSplit`. */
  function OnDevices(ids: seq<int>): (slots: seq<Option<int>>)
    ensures |slots| == |ids|
    ensures forall i | 0 <= i < |ids| :: slots[i] == Some(ids[i])
  {
    seq(|ids|, i requires 0 <= i < |ids| => Some(ids[i]))
  }

  /** The result of `run_model`: the backend's output as it is, or its
      columns split in two. */
  datatype TransWeights<T> = Whole(weights: seq<seq<T>>) | Split(can: seq<seq<T>>, mods: seq<seq<T>>)

  /** How a call into a foreign backend ended. */
  datatype Outcome<T> = Returned(value: T) | Raised(error: Exception)

  /** Python's clamping of a slice bound `n` (possibly negative) to a
      sequence of length `len`. */
  function SliceBound(len: nat, n: int): (k: nat)
    ensures k <= len
    ensures 0 <= n <= len ==> k == n
    ensures n < 0 && len + n >= 0 ==> k == len + n
  {
    if n < 0 then (if len + n < 0 then 0 else len + n)
    else if n > len then len
    else n
  }

  /** `(w[:, :n], w[:, n:])`, row by row. */
  function SplitColumns<T>(w: seq<seq<T>>, n: int): (parts: (seq<seq<T>>, seq<seq<T>>))
    ensures |parts.0| == |w| && |parts.1| == |w|
  {
    (seq(|w|, i requires 0 <= i < |w| => w[i][..SliceBound(|w[i]|, n)]),
     seq(|w|, i requires 0 <= i < |w| => w[i][SliceBound(|w[i]|, n)..]))
  }

  /** Puts two column blocks side by side, row by row. */
  function JoinColumns<T>(a: seq<seq<T>>, b: seq<seq<T>>): (w: seq<seq<T>>)
    requires |a| == |b|
    ensures |w| == |a|
    ensures forall i | 0 <= i < |a| :: |w[i]| == |a[i]| + |b[i]|
  {
    seq(|a|, i requires 0 <= i < |a| => a[i] + b[i])
  }

  /** Splitting the columns loses nothing: putting the parts side by side
      gives back the matrix, whatever the split point. */
  lemma SplitJoin<T>(w: seq<seq<T>>, n: int)
    ensures JoinColumns(SplitColumns(w, n).0, SplitColumns(w, n).1) == w
  {
    var parts := SplitColumns(w, n);
    var joined := JoinColumns(parts.0, parts.1);
    forall i | 0 <= i < |w|
      ensures joined[i] == w[i]
    {
      var k := SliceBound(|w[i]|, n);
      assert parts.0[i] == w[i][..k] && parts.1[i] == w[i][k..];
      assert w[i][..k] + w[i][k..] == w[i];
    }
  }

  /** With a split point inside every row the first part is exactly n
      columns wide and the second holds the rest. */
  lemma SplitWidths<T>(w: seq<seq<T>>, n: nat, i: nat)
    requires i < |w| && n <= |w[i]|
    ensures |SplitColumns(w, n).0[i]| == n
    ensures |SplitColumns(w, n).1[i]| == |w[i]| - n
    ensures SplitColumns(w, n).0[i] == w[i][..n]
  {
  }

  /** The exceptions `except RuntimeError` catches: `RuntimeError` itself and
      its subclass `NotImplementedError`. */
  predicate IsRuntimeError(e: Exception)
  {
    e.RuntimeError? || e.NotImplementedError?
  }

  /** The taiyaki backend's exceptions as `run_model` reports them. */
  function TaiyakiError(e: Exception): (r: Exception)
    ensures e == AttributeError ==> r == MegaError(INCOMPATIBLE_MSG)
    ensures IsRuntimeError(e) ==> r == MegaError(OUT_OF_MEMORY_MSG)
    ensures e != AttributeError && !IsRuntimeError(e) ==> r == e
    ensures r != AttributeError && !IsRuntimeError(r)
  {
    match e
    case AttributeError => MegaError(INCOMPATIBLE_MSG)
    case RuntimeError => MegaError(OUT_OF_MEMORY_MSG)
    case NotImplementedError(_) => MegaError(OUT_OF_MEMORY_MSG)
    case _ => e
  }

  class ModelInfo {
    var modelType: string
    var name: string
    var fn: string
    var isCatMod: bool
    var outputAlphabet: string
    var canNmods: seq<nat>
    var canIndices: seq<nat>
    var canAlphabet: string
    var canBaseMods: map<char, string>
    var strToIntModLabels: map<char, nat>
    var modLongNames: seq<(string, string)>
    var nMods: nat
    var outputSize: nat
    var chunkSize: nat
    var chunkOverlap: nat
    var maxConcurChunks: nat
    var devices: seq<int>
    var processDevices: seq<Option<int>>

    /** What every constructed model satisfies: a known backend, and for a
        categorical-modification model an alphabet split into runs whose
        canonical bases, modification lists and (taiyaki) labels were
        derived from it; a plain model has the four canonical bases and no
        modifications. */
    predicate Valid()
      reads this
    {
      && (modelType == FLP_NAME || modelType == TAI_NAME)
      && (isCatMod ==>
            && Distinct(outputAlphabet)
            && RunStarts(canIndices, |outputAlphabet|)
            && canAlphabet == CanAlphabet(outputAlphabet, canIndices)
            && canBaseMods == CanBaseModsOf(outputAlphabet, canIndices)
            && (modelType == TAI_NAME ==> strToIntModLabels == ModLabelsOf(outputAlphabet, canIndices)))
      && (!isCatMod ==> canAlphabet == ALPHABET && modLongNames == [] && nMods == 0)
      && (!isCatMod && modelType == TAI_NAME ==> strToIntModLabels == map[])
    }

    /** The flappie branch (lines 22-64), with `can_base_mods` stored as
        evidently intended. */
    constructor Flappie(flappieModelName: string, numProc: nat, catMods: CatMods)
      requires flappieModelName != FLAPPIE_NAIVE_MOD
      requires flappieModelName == FLAPPIE_CAT_MOD ==>
        Distinct(catMods.alphabet) && IndicesInRange(catMods.canNmods, |catMods.alphabet|)
      ensures Valid()
      ensures modelType == FLP_NAME && name == flappieModelName
      ensures isCatMod <==> flappieModelName == FLAPPIE_CAT_MOD
      ensures isCatMod ==>
        && outputAlphabet == catMods.alphabet
        && canNmods == catMods.canNmods
        && nMods == Sum(catMods.canNmods)
        && outputSize == 41 + nMods
        && canIndices == CanIndices(catMods.canNmods)
        && modLongNames == SelfNamed(ModBases(catMods.alphabet, catMods.canNmods))
      ensures !isCatMod ==> outputSize == 40
      ensures processDevices == Repeat(None, numProc)
    {
      modelType, name, fn := FLP_NAME, flappieModelName, "";
      strToIntModLabels := map[];
      chunkSize, chunkOverlap, maxConcurChunks := 0, 0, 0;
      devices := [];
      if flappieModelName == FLAPPIE_CAT_MOD {
        isCatMod := true;
        var canNmods0, alphabet := catMods.canNmods, catMods.alphabet;
        outputAlphabet := alphabet;
        canNmods := canNmods0;
        SumNonNegative(canNmods0);
        nMods := Sum(canNmods0);
        outputSize := 41 + Sum(canNmods0);
        var idx := CanIndices(canNmods0);
        canIndices := idx;
        CanIndicesAreRunStarts(canNmods0, |alphabet|);
        var canBases := CanAlphabet(alphabet, idx);
        canAlphabet := canBases;
        modLongNames := SelfNamed(ModBases(alphabet, canNmods0));
        var mods := CollectModsBySymbol(alphabet, canBases, idx);
        canBaseMods := mods;
      } else {
        isCatMod := false;
        outputAlphabet, canNmods, canIndices := "", [], [];
        canBaseMods := map[];
        canAlphabet := ALPHABET;
        modLongNames := [];
        outputSize := 40;
        nMods := 0;
      }
      processDevices := Repeat(None, numProc);
    }

    /** The taiyaki branch (lines 65-139), once the chunk parameters are
        known to be given and the device list to be non-empty. */
    constructor Taiyaki(taiyakiModelFn: string, chunkSize: nat, chunkOverlap: nat, maxConcurChunks: nat,
                        devices: seq<int>, numProc: nat, layer: FinalLayer)
      requires devices != []
      requires layer.isCatMod ==>
        Distinct(layer.outputAlphabet) && IndicesInRange(layer.canNmods, |layer.outputAlphabet|)
      requires !layer.isCatMod ==> NStateToNBase(layer.size) == 4
      ensures Valid()
      ensures modelType == TAI_NAME && fn == taiyakiModelFn
      ensures this.chunkSize == chunkSize && this.chunkOverlap == chunkOverlap
      ensures this.maxConcurChunks == maxConcurChunks && this.devices == devices
      ensures processDevices == OnDevices(ProcessDevices(devices, numProc))
      ensures isCatMod == layer.isCatMod && outputSize == layer.size
      ensures isCatMod ==>
        && outputAlphabet == layer.outputAlphabet
        && canIndices == CanIndices(layer.canNmods)
        && modLongNames == layer.modLongNames
      ensures !isCatMod ==> outputAlphabet == ALPHABET
      ensures nMods == |modLongNames|
    {
      modelType, fn, name := TAI_NAME, taiyakiModelFn, "";
      this.chunkSize, this.chunkOverlap, this.maxConcurChunks := chunkSize, chunkOverlap, maxConcurChunks;
      this.devices := devices;
      var procsPerDevice := ProcsPerDevice(numProc, |devices|);
      processDevices := OnDevices(RepeatDevices(devices, procsPerDevice));
      isCatMod := layer.isCatMod;
      outputSize := layer.size;
      canNmods := [];
      if layer.isCatMod {
        var alphabet := layer.outputAlphabet;
        outputAlphabet := alphabet;
        var idx := CanIndices(layer.canNmods);
        canIndices := idx;
        CanIndicesAreRunStarts(layer.canNmods, |alphabet|);
        canAlphabet := CanAlphabet(alphabet, idx);
        modLongNames := layer.modLongNames;
        nMods := |layer.modLongNames|;
        var mods, labels := ResolveModRuns(alphabet, idx);
        canBaseMods, strToIntModLabels := mods, labels;
      } else {
        outputAlphabet := ALPHABET;
        canAlphabet := ALPHABET;
        canIndices := [];
        canBaseMods := map[];
        modLongNames := [];
        nMods := 0;
        strToIntModLabels := map[];
      }
    }

    /** `run_model`: the flappie backend's outcome is passed on as it is;
        the taiyaki backend's known failures become `MegaError`s and, given
        `n_can_state`, its output is split into canonical and modification
        columns; any other model type is refused. */
    function RunModel<T>(nCanState: Option<int>, flappieOutput: Outcome<TransWeights<T>>,
                         taiyakiOutput: Outcome<seq<seq<T>>>): (r: Result<TransWeights<T>, Exception>)
      reads this
      ensures modelType != FLP_NAME && modelType != TAI_NAME ==> r == Failure(MegaError(INVALID_TYPE_MSG))
      ensures modelType == FLP_NAME ==>
        (r.Success? <==> flappieOutput.Returned?) &&
        (r.Success? ==> r.value == flappieOutput.value) &&
        (r.Failure? ==> r.error == flappieOutput.error)
      ensures modelType == TAI_NAME ==>
        (r.Success? <==> taiyakiOutput.Returned?) &&
        (r.Failure? ==> r.error == TaiyakiError(taiyakiOutput.error))
      ensures modelType == TAI_NAME && r.Success? ==>
        if nCanState.None? then r.value == Whole(taiyakiOutput.value)
        else r.value.Split? && |r.value.can| == |r.value.mods| && JoinColumns(r.value.can, r.value.mods) == taiyakiOutput.value
      ensures modelType == TAI_NAME && r.Success? && nCanState.Some? ==>
        r.value == Split(SplitColumns(taiyakiOutput.value, nCanState.value).0, SplitColumns(taiyakiOutput.value, nCanState.value).1)
      ensures modelType == TAI_NAME && r.Success? && nCanState.Some? && nCanState.value >= 0 ==>
        forall i | 0 <= i < |r.value.can| && nCanState.value <= |taiyakiOutput.value[i]| ::
          r.value.can[i] == taiyakiOutput.value[i][..nCanState.value]
    {
      if modelType == FLP_NAME then
        match flappieOutput
        case Returned(w) => Success(w)
        case Raised(e) => Failure(e)
      else if modelType == TAI_NAME then
        match taiyakiOutput
        case Raised(e) => Failure(TaiyakiError(e))
        case Returned(w) =>
          if nCanState.None? then Success(Whole(w))
          else
            var parts := SplitColumns(w, nCanState.value);
            SplitJoin(w, nCanState.value);
            Success(Split(parts.0, parts.1))
      else Failure(MegaError(INVALID_TYPE_MSG))
    }
  }

  /** `ModelInfo(...)`: the checks in source order, then the branch's
      construction. */
  method NewModelInfo(spec: ModelSpec, catMods: CatMods, layer: FinalLayer) returns (r: Result<ModelInfo, Exception>)
    requires DistinctAlphabets(spec, catMods, layer)
    ensures r.Failure? <==> ConstructionError(spec, catMods, layer).Some?
    ensures r.Failure? ==> r.error == ConstructionError(spec, catMods, layer).value
    ensures r.Success? ==> fresh(r.value) && r.value.Valid()
    ensures r.Success? ==> |r.value.processDevices| == spec.numProc
    ensures r.Success? && spec.flappieModelName.Some? ==>
      && r.value.modelType == FLP_NAME && r.value.name == spec.flappieModelName.value
      && r.value.processDevices == Repeat(None, spec.numProc)
      && (r.value.isCatMod <==> spec.flappieModelName.value == FLAPPIE_CAT_MOD)
      && (r.value.isCatMod ==>
            && r.value.outputAlphabet == catMods.alphabet
            && r.value.canNmods == catMods.canNmods
            && r.value.nMods == Sum(catMods.canNmods)
            && r.value.outputSize == 41 + r.value.nMods
            && r.value.canIndices == CanIndices(catMods.canNmods)
            && r.value.modLongNames == SelfNamed(ModBases(catMods.alphabet, catMods.canNmods)))
      && (!r.value.isCatMod ==> r.value.outputSize == 40)
    ensures r.Success? && spec.flappieModelName.None? ==>
      && r.value.modelType == TAI_NAME && r.value.fn == spec.taiyakiModelFn.value
      && r.value.chunkSize == spec.chunkSize.value && r.value.chunkOverlap == spec.chunkOverlap.value
      && r.value.maxConcurChunks == spec.maxConcurChunks.value && r.value.devices == spec.devices.value
      && r.value.processDevices == OnDevices(ProcessDevices(spec.devices.value, spec.numProc))
      && r.value.isCatMod == layer.isCatMod && r.value.outputSize == layer.size
      && (r.value.isCatMod ==>
            && r.value.outputAlphabet == layer.outputAlphabet
            && r.value.canIndices == CanIndices(layer.canNmods)
            && r.value.modLongNames == layer.modLongNames)
      && (!r.value.isCatMod ==> r.value.outputAlphabet == ALPHABET)
      && r.value.nMods == |r.value.modLongNames|
  {
    if spec.flappieModelName.Some? {
      var name := spec.flappieModelName.value;
      if name == FLAPPIE_NAIVE_MOD {
        return Failure(NotImplementedError(NAIVE_MOD_MSG));
      }
      if name == FLAPPIE_CAT_MOD && !IndicesInRange(catMods.canNmods, |catMods.alphabet|) {
        return Failure(IndexError);
      }
      var m := new ModelInfo.Flappie(name, spec.numProc, catMods);
      return Success(m);
    } else if spec.taiyakiModelFn.Some? {
      if spec.chunkSize.None? || spec.chunkOverlap.None? || spec.maxConcurChunks.None? {
        return Failure(NotImplementedError(CHUNK_MSG));
      }
      if spec.devices.None? {
        return Failure(TypeError);
      }
      var devices := spec.devices.value;
      if devices == [] {
        return Failure(ZeroDivisionError);
      }
      if layer.isCatMod && !IndicesInRange(layer.canNmods, |layer.outputAlphabet|) {
        return Failure(IndexError);
      }
      if !layer.isCatMod && NStateToNBase(layer.size) != 4 {
        return Failure(NotImplementedError(NAIVE_MOD_MSG));
      }
      var m := new ModelInfo.Taiyaki(spec.taiyakiModelFn.value, spec.chunkSize.value, spec.chunkOverlap.value,
                                     spec.maxConcurChunks.value, devices, spec.numProc, layer);
      ProcessDevicesSplit(devices, spec.numProc, 0, 0);
      return Success(m);
    } else {
      return Failure(MegaError(INVALID_SPEC_MSG));
    }
  }

  /** Without a backend the constructor refuses the specification. */
  lemma NoBackendRefused(spec: ModelSpec, catMods: CatMods, layer: FinalLayer)
    requires spec.flappieModelName.None? && spec.taiyakiModelFn.None?
    ensures ConstructionError(spec, catMods, layer) == Some(MegaError(INVALID_SPEC_MSG))
  {
  }

  /** On the taiyaki path a missing chunk parameter is reported before the
      device list is looked at: whatever the devices and the model, the
      error is the chunk message. */
  lemma ChunkParamsCheckedFirst(spec: ModelSpec, catMods: CatMods, layer: FinalLayer, devices: Option<seq<int>>)
    requires spec.flappieModelName.None? && spec.taiyakiModelFn.Some?
    requires spec.chunkSize.None? || spec.chunkOverlap.None? || spec.maxConcurChunks.None?
    ensures ConstructionError(spec, catMods, layer) == Some(NotImplementedError(CHUNK_MSG))
    ensures ConstructionError(spec.(devices := devices), catMods, layer) == Some(NotImplementedError(CHUNK_MSG))
  {
  }

  /** Naive modified-base models are refused: the flappie `r941_5mC` model,
      and a plain taiyaki layer exactly when its output size is not one of
      40 to 59 (four bases). */
  lemma NaiveModelsRefused(spec: ModelSpec, catMods: CatMods, layer: FinalLayer)
    ensures spec.flappieModelName == Some(FLAPPIE_NAIVE_MOD) ==>
      ConstructionError(spec, catMods, layer) == Some(NotImplementedError(NAIVE_MOD_MSG))
    ensures (&& spec.flappieModelName.None? && spec.taiyakiModelFn.Some?
             && spec.chunkSize.Some? && spec.chunkOverlap.Some? && spec.maxConcurChunks.Some?
             && spec.devices.Some? && spec.devices.value != [] && !layer.isCatMod) ==>
        (ConstructionError(spec, catMods, layer) == Some(NotImplementedError(NAIVE_MOD_MSG))
         <==> !(40 <= layer.size < 60))
  {
    FourBasesRange(layer.size);
  }

  /** A categorical-modification model whose alphabet is as long as its
      counts say is accepted on either path, once the taiyaki arguments are
      complete. */
  lemma ConsistentCatModsAccepted(spec: ModelSpec, catMods: CatMods, layer: FinalLayer)
    requires spec.flappieModelName == Some(FLAPPIE_CAT_MOD) ||
      (&& spec.flappieModelName.None? && spec.taiyakiModelFn.Some?
       && spec.chunkSize.Some? && spec.chunkOverlap.Some? && spec.maxConcurChunks.Some?
       && spec.devices.Some? && spec.devices.value != [] && layer.isCatMod)
    requires spec.flappieModelName.Some? ==>
      catMods.canNmods != [] && |catMods.alphabet| == Sum(catMods.canNmods) + |catMods.canNmods|
    requires spec.flappieModelName.None? ==>
      layer.canNmods != [] && |layer.outputAlphabet| == Sum(layer.canNmods) + |layer.canNmods|
    ensures ConstructionError(spec, catMods, layer).None?
  {
    if spec.flappieModelName.Some? {
      RunLengths(catMods.alphabet, catMods.canNmods, 0);
    } else {
      RunLengths(layer.outputAlphabet, layer.canNmods, 0);
    }
  }

  /** On the flappie path `n_mods = can_nmods.sum()` counts the
      `mod_long_names` exactly when the alphabet is as long as the counts
      say, so both paths agree that `n_mods` is the number of modification
      names. */
  lemma FlappieModCount(catMods: CatMods)
    requires catMods.canNmods != [] && |catMods.alphabet| == Sum(catMods.canNmods) + |catMods.canNmods|
    ensures |SelfNamed(ModBases(catMods.alphabet, catMods.canNmods))| == Sum(catMods.canNmods)
  {
    ModBasesCount(catMods.alphabet, catMods.canNmods);
  }

  /** Writing each canonical base of a model followed by its modifications
      gives back the model's output alphabet. */
  lemma ModelAlphabetRoundTrip(m: ModelInfo)
    requires m.Valid() && m.isCatMod
    ensures Rebuild(m.canAlphabet, m.canBaseMods) == m.outputAlphabet
  {
    RebuildAlphabet(m.outputAlphabet, m.canIndices);
  }

  /** In a taiyaki categorical-modification model the t-th modification of
      canonical base k carries label t. */
  lemma ModelLabelsMatchLists(m: ModelInfo, k: nat, t: nat)
    requires m.Valid() && m.isCatMod && m.modelType == TAI_NAME
    requires k < |m.canAlphabet| && t < |ModsOf(m.canBaseMods, m.canAlphabet[k])|
    ensures ModsOf(m.canBaseMods, m.canAlphabet[k])[t] in m.strToIntModLabels
    ensures m.strToIntModLabels[ModsOf(m.canBaseMods, m.canAlphabet[k])[t]] == t
  {
    LabelsMatchLists(m.outputAlphabet, m.canIndices, k, t);
  }

  /** A constructed model always reaches a backend: when the backend call
      returns, `run_model` returns its weights, and it reports an invalid
      model type only if the backend itself raised that error. */
  lemma ValidModelDispatches<T>(m: ModelInfo, nCanState: Option<int>, flappieOutput: Outcome<TransWeights<T>>,
                                taiyakiOutput: Outcome<seq<seq<T>>>)
    requires m.Valid()
    ensures m.modelType == FLP_NAME && flappieOutput.Returned? ==> m.RunModel(nCanState, flappieOutput, taiyakiOutput).Success?
    ensures m.modelType == TAI_NAME && taiyakiOutput.Returned? ==> m.RunModel(nCanState, flappieOutput, taiyakiOutput).Success?
    ensures m.RunModel(nCanState, flappieOutput, taiyakiOutput) == Failure(MegaError(INVALID_TYPE_MSG)) ==>
      || (m.modelType == FLP_NAME && flappieOutput == Raised(MegaError(INVALID_TYPE_MSG)))
      || (m.modelType == TAI_NAME && taiyakiOutput == Raised(MegaError(INVALID_TYPE_MSG)))
  {
  }

  /** The attributes the flappie categorical-modification branch assigns
      before its last line: lines 35-50, where the map is bound to
      `can_base_mod`, without the final `s`. */
  const FLAPPIE_CAT_MOD_ATTRS: set<string> :=
    {"is_cat_mod", "output_alphabet", "can_nmods", "n_mods", "output_size", "can_indices",
     "can_alphabet", "mod_long_names", "can_base_mod"}

  /** The flappie categorical-modification branch as written (lines 34-56).
      Reading `output_alphabet[b_i]` fails with `IndexError` when an offset
      is out of range. The loop of lines 51-55 cannot fail: position 0 always
      holds a canonical symbol, so `curr_can_base` is bound before the first
      append. Line 56 then reads `self.can_base_mods`, which succeeds only if
      that attribute was assigned. */
  function FlappieCatModAsWritten(catMods: CatMods): (r: Result<map<char, string>, Exception>)
    ensures r.Failure?
    ensures r.error == IndexError <==> !IndicesInRange(catMods.canNmods, |catMods.alphabet|)
  {
    if !IndicesInRange(catMods.canNmods, |catMods.alphabet|) then Failure(IndexError)
    else
      CanIndicesAreRunStarts(catMods.canNmods, |catMods.alphabet|);
      var built := CanBaseModsOf(catMods.alphabet, CanIndices(catMods.canNmods));
      if "can_base_mods" in FLAPPIE_CAT_MOD_ATTRS then Success(built) else Failure(AttributeError)
  }

  /** The branch as written never completes, even for the consistent model
      that the corrected constructor accepts. */
  lemma FlappieCatModAsWrittenFails(catMods: CatMods)
    requires catMods.canNmods != [] && |catMods.alphabet| == Sum(catMods.canNmods) + |catMods.canNmods|
    ensures FlappieCatModAsWritten(catMods) == Failure(AttributeError)
    ensures ConstructionError(ModelSpec(Some(FLAPPIE_CAT_MOD), None, None, 1, None, None, None), catMods,
                              FinalLayer(0, false, "", [], [])).None?
  {
    RunLengths(catMods.alphabet, catMods.canNmods, 0);
  }
}
