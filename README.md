# Megalodon basecalling backends in Dafny

This project models the core of megalodon's basecalling backend layer
(`megalodon/backends.py`) and the two sequence helpers it uses
(`megalodon/megalodon_helper.py`). It then proves the properties that code
promises.

- **`ModelInfo` construction.** The constructor chooses the flappie or the
  taiyaki backend and checks the arguments in source order. Each failure
  becomes a `Failure` of a `Result`:
  - no backend gives `MegaError`;
  - the naive `r941_5mC` flappie model gives `NotImplementedError`;
  - a missing chunk parameter gives `NotImplementedError`;
  - `devices=None` gives `TypeError`;
  - `devices=[]` gives `ZeroDivisionError`;
  - an out-of-range canonical offset gives `IndexError`;
  - a plain taiyaki layer that is not a four-base model gives
    `NotImplementedError`.

  The class `ModelInfo` has one constructor per backend.
- **Alphabet resolution** for categorical-modification ("cat-mod") models.
  The output alphabet is a sequence of runs, each one canonical base followed
  by its modification symbols. From the per-base modification counts the model
  derives:
  - `can_indices`, an exclusive prefix sum;
  - the canonical alphabet;
  - `can_base_mods`;
  - the per-run labels `str_to_int_mod_labels`;
  - `mod_bases`, `n_mods` and `output_size`.

  The two loops that fill the maps are methods with loop invariants. They are
  proved equal to recursive run-by-run definitions, and those definitions are
  proved to be lossless: the canonical bases, each followed by its list,
  rebuild the alphabet. The flappie loop tells a canonical base by symbol
  membership and the taiyaki loop by position. With distinct symbols the two
  tests agree (`SymbolMembershipAgrees`), so both loops build the same map.
- **Device split.** `num_proc` processes are spread over the device list. The
  per-device counts are computed in place on an array, as `procs_per_device`
  is. The model proves that the `assert` on their total always holds, and that
  the expanded list gives each device one contiguous block of `ceil(P/D)` or
  one fewer entries, in list order.
- **`run_model`.** It dispatches on the model type, maps the taiyaki
  backend's `AttributeError` and `RuntimeError` failures to `MegaError`, and splits the output columns at
  `n_can_state`, using Python's slice clamping.
- **Helpers.** `revcomp` over the `COMP_BASES` table. `nstate_to_nbase`
  in exact arithmetic, as the largest `b` with `2·b·(b+1) ≤ nstate`. The
  `MOD_ALPHABET` constant.

The foreign runtimes are inputs to the model:
- what `flappy.get_cat_mods()` returns (`CatMods`);
- the final layer of a loaded taiyaki model (`FinalLayer`);
- the outcome of an inference call (`Outcome`).

Where descriptions of this code and the code itself disagree, the model
follows the code:
- A plain taiyaki layer of the wrong size raises `NotImplementedError`, not
  `MegaError`.
- Run `k` of the alphabet holds `can_nmods[k]` modification symbols. So with
  counts `[1,0,2,0]` the two-symbol run belongs to `G`, not `C`.

Modules: `Wrappers` (Option, Result), `Seqs`, `MegalodonHelper`,
`AlphabetResolution`, `DeviceSplit` and `Backends`.

## Model

| member | source | states |
|---|---|---|
| `MegalodonHelper.ComplementPairs` | megalodon/megalodon_helper.py:18 | The complement table swaps A with T and C with G. It is its own inverse, keeps ACGT inside ACGT, and leaves every other character unchanged. |
| `MegalodonHelper.Translate` | megalodon/megalodon_helper.py:30 | `str.translate` keeps the length and replaces each character by its complement in place. |
| `MegalodonHelper.Revcomp` | megalodon/megalodon_helper.py:29-30 | `revcomp` keeps the length. Position i of the result is the complement of position len-1-i of the input. |
| `MegalodonHelper.RevcompInvolutive` | megalodon/megalodon_helper.py:29-30 | `revcomp(revcomp(s)) == s` for every string. |
| `MegalodonHelper.RevcompConcat` | megalodon/megalodon_helper.py:29-30 | `revcomp(s + t) == revcomp(t) + revcomp(s)`. |
| `MegalodonHelper.RevcompPassesThrough` | megalodon/megalodon_helper.py:18 | A character outside ACGT reaches the result uncomplemented, only moved to the mirrored position. |
| `MegalodonHelper.ISqrt` | megalodon/megalodon_helper.py:27 | The integer square root: the largest r with r·r ≤ m. |
| `MegalodonHelper.NStateToNBase` | megalodon/megalodon_helper.py:26-27 | The result b satisfies 2·b·(b+1) ≤ nstate < 2·(b+1)·(b+2). |
| `MegalodonHelper.NStateToNBaseIsLargest` | megalodon/megalodon_helper.py:26-27 | Every b with 2·b·(b+1) ≤ nstate is at most the result, so the result is the largest such b. |
| `MegalodonHelper.NStateToNBaseMonotone` | megalodon/megalodon_helper.py:26-27 | The base count never decreases as the state count grows. |
| `MegalodonHelper.FourBasesRange` | megalodon/megalodon_helper.py:26-27 | The base count is 4 exactly for state counts 40 to 59. |
| `MegalodonHelper.FortyStatesAreFourBases` | megalodon/megalodon_helper.py:26-27 | `nstate_to_nbase(40) == 4`, the size of a plain flip-flop model. |
| `Seqs.Reverse` | megalodon/megalodon_helper.py:30 | `[::-1]` keeps the length and puts element len-1-i at position i. |
| `AlphabetResolution.CanIndices` | megalodon/backends.py:114-115 | `can_indices` has one offset per count (`[0]` for no counts). It starts at 0, and each offset is the previous one plus that run's count plus one. |
| `AlphabetResolution.CanIndicesClosedForm` | megalodon/backends.py:41-42 | Offset k is the sum of the first k counts plus k. |
| `AlphabetResolution.CanIndicesAreRunStarts` | megalodon/backends.py:114-117 | When the last offset is a position of the alphabet, every offset is, and the offsets strictly increase. |
| `AlphabetResolution.SymbolMembershipAgrees` | megalodon/backends.py:52 | With distinct symbols, position i holds a canonical symbol (`base in can_bases`) exactly when i is an offset (`base_i in can_indices`). |
| `AlphabetResolution.CanAlphabet` | megalodon/backends.py:116-117 | `can_alphabet` has one symbol per offset, and the first is the alphabet's first symbol. `SymbolMembershipAgrees` characterises its symbols. |
| `AlphabetResolution.ResolveModRuns` | megalodon/backends.py:119-129 | The taiyaki loop builds exactly `CanBaseModsOf` and `ModLabelsOf`, the run-by-run definitions. |
| `AlphabetResolution.CollectModsBySymbol` | megalodon/backends.py:50-55 | The flappie loop, which tests symbol membership, builds exactly `CanBaseModsOf`. |
| `AlphabetResolution.CanBaseModsOfRun` | megalodon/backends.py:120-129 | Each canonical base maps to exactly the symbols of its own run, in alphabet order. It is a key only when that run is non-empty, as with a `defaultdict` filled by appending. |
| `AlphabetResolution.CanBaseModsKeys` | megalodon/backends.py:120-129 | Every key of `can_base_mods` is a canonical base. |
| `AlphabetResolution.ModSymbolInOneList` | megalodon/backends.py:120-129 | A modification symbol lies in its own run's list and in no other canonical base's list. |
| `AlphabetResolution.ModLabelsOfRun` | megalodon/backends.py:119-128 | The symbol at a non-offset position p of run k has label p - offset - 1. The count restarts at 0 after every canonical base. |
| `AlphabetResolution.LabelsMatchLists` | megalodon/backends.py:119-128 | The t-th symbol in a canonical base's list has label t. |
| `AlphabetResolution.RebuildAlphabet` | megalodon/backends.py:120-129 | Round trip: writing each canonical base followed by its list gives back the output alphabet. |
| `AlphabetResolution.RunLengths` | megalodon/backends.py:41-44 | If the alphabet is exactly as long as the counts say, every offset is in range and run k holds `can_nmods[k]` symbols. |
| `AlphabetResolution.PySlice` | megalodon/backends.py:46 | Python's slice with both ends clamped. It has hi - lo symbols when both ends are in range, and is never longer than hi - lo. |
| `AlphabetResolution.PySliceInRange` | megalodon/backends.py:46 | With both ends in range, the Python slice is the plain slice. |
| `AlphabetResolution.ModSliceIsRun` | megalodon/backends.py:45-47 | With consistent counts, each slice of `mod_bases` is one run and has `can_nmods[k]` symbols. |
| `AlphabetResolution.ModBasesUpTo` | megalodon/backends.py:45-47 | `mod_bases` over the first k pairs of `zip(can_indices, can_nmods)` never holds more symbols than the first k counts sum to. |
| `AlphabetResolution.ModBases` | megalodon/backends.py:45-47 | `mod_bases` never holds more than `sum(can_nmods)` symbols, because each clamped slice is at most its count long. |
| `AlphabetResolution.ModBasesCount` | megalodon/backends.py:39-49 | With consistent counts, `mod_bases` has `sum(can_nmods)` symbols. |
| `DeviceSplit.CeilDiv` | megalodon/backends.py:79 | `ceil(P/D)`: the smallest c with c·D ≥ P. |
| `DeviceSplit.SurplusBelowDevices` | megalodon/backends.py:81-83 | The surplus ceil·D - P is below D, so the slice `[-surplus:]` never reaches the first device. When the surplus is positive the ceiling is at least 1. |
| `DeviceSplit.SumBalanced` | megalodon/backends.py:84 | The final counts sum to `num_proc`, so the source's `assert` always holds. |
| `DeviceSplit.BalancedCountsShape` | megalodon/backends.py:79-83 | Every device gets the ceiling or one fewer. The counts never increase along the list, and the first device gets the ceiling. |
| `DeviceSplit.EvenSplit` | megalodon/backends.py:79-83 | When D divides P every device gets P/D. |
| `DeviceSplit.ProcsPerDevice` | megalodon/backends.py:79-84 | The in-place fill-and-decrement on an array yields the balanced counts, which sum to `num_proc`. |
| `DeviceSplit.RepeatDevices` | megalodon/backends.py:85-86 | `np.repeat` has as many entries as the counts sum to, and each entry is a listed device. |
| `DeviceSplit.RepeatDevicesBlock` | megalodon/backends.py:85-86 | Device j fills the contiguous block that starts after the entries of the devices before it. |
| `DeviceSplit.ProcessDevices` | megalodon/backends.py:85-86 | `process_devices` of the taiyaki path has exactly `num_proc` entries, each a listed device. |
| `DeviceSplit.ProcessDevicesSplit` | megalodon/backends.py:79-86 | `process_devices` has one entry per process and names only listed devices. Device j holds one contiguous block, in list order. |
| `Backends.Without` | megalodon/backends.py:13-14 | The filter keeps only symbols of the input that are not excluded. |
| `Backends.ModAlphabetLetters` | megalodon/backends.py:13-14 | The symbols of `MOD_ALPHABET` are exactly the uppercase letters. |
| `Backends.ModAlphabetShape` | megalodon/backends.py:12-14 | `MOD_ALPHABET` is ACGT followed by the 22 other uppercase letters in descending order. It has 26 distinct symbols. |
| `Backends.SelfNamed` | megalodon/backends.py:49 | `mod_long_names` pairs each symbol of `mod_bases` with itself, in order. |
| `Backends.OnDevices` | megalodon/backends.py:85-86 | `int(dv)` for each device: one entry per process, holding that process's device. |
| `Backends.SliceBound` | megalodon/backends.py:177-178 | A slice bound clamped as Python does: n itself when 0 ≤ n ≤ len, len + n for a negative n that fits. |
| `Backends.SplitColumns` | megalodon/backends.py:176-178 | Both parts keep every row of the matrix. |
| `Backends.SplitJoin` | megalodon/backends.py:175-178 | Putting the two column parts side by side gives back the matrix, for every split point. |
| `Backends.SplitWidths` | megalodon/backends.py:175-178 | For a split point inside a row, the first part is the first n columns and the second part holds the rest. |
| `Backends.TaiyakiError` | megalodon/backends.py:165-172 | `AttributeError` becomes the "incompatible model" `MegaError`. `RuntimeError` and its subclass `NotImplementedError` become the "out of memory" `MegaError`. Every other exception propagates unchanged. No exception that the two handlers catch leaves the function. |
| `Backends.ModelInfo.Flappie` | megalodon/backends.py:22-64 | Cat-mod: alphabet and counts kept; `n_mods = sum(can_nmods)`; `output_size = 41 + n_mods`; `can_indices`; self-named `mod_bases`; `can_base_mods` as intended. Plain: `output_size = 40`, `n_mods = 0`, canonical alphabet ACGT. Every process gets `None`. |
| `Backends.ModelInfo.Taiyaki` | megalodon/backends.py:65-139 | Stores the chunk parameters and devices; `process_devices` comes from the split. Cat-mod: alphabet, offsets, maps and labels resolved. Plain: the canonical alphabet, no modifications and empty `str_to_int_mod_labels`. `output_size` is the layer size and `n_mods = len(mod_long_names)`. |
| `Backends.ModelInfo.RunModel` | megalodon/backends.py:159-182 | Flappie: the backend's outcome passes through. Taiyaki: the mapped error, or the whole output, or, given `n_can_state`, the two column slices `w[:, :n]` and `w[:, n:]`. They join back to the output, and each row of the first part is the first n columns when n lies inside the row. Any other type: `MegaError('Invalid model type.')`. |
| `Backends.NewModelInfo` | megalodon/backends.py:18-143 | Fails exactly when `ConstructionError` names an exception, and with that exception. Otherwise it returns a valid model with one process entry per process and the fields the branch computes. Flappie: name, `is_cat_mod`; for cat-mod the alphabet, counts, offsets, `n_mods = sum(can_nmods)`, `output_size = 41 + n_mods` and self-named `mod_bases`; otherwise `output_size = 40`. Taiyaki: file name, chunk parameters, devices, process devices, `is_cat_mod` and `output_size` from the layer, alphabet and offsets, `n_mods = len(mod_long_names)`, and through `Valid()` empty `str_to_int_mod_labels` for a plain layer. |
| `Backends.ConstructionError` | megalodon/backends.py:22-141 | `MegaError('Invalid model specification.')` comes exactly when neither backend is given. A model accepted on the taiyaki path has all chunk parameters and a non-empty device list, and its layer has offsets in range (cat-mod) or four bases (plain). A model accepted on the flappie path is not `r941_5mC`, and its cat-mod offsets are in range. |
| `Backends.NoBackendRefused` | megalodon/backends.py:140-141 | With neither backend given, the constructor raises `MegaError('Invalid model specification.')`. |
| `Backends.ChunkParamsCheckedFirst` | megalodon/backends.py:66-71 | On the taiyaki path a missing chunk parameter raises the chunk `NotImplementedError`, whatever the device list is. |
| `Backends.NaiveModelsRefused` | megalodon/backends.py:131-134 | `r941_5mC` is refused. A plain taiyaki layer is refused exactly when its size is outside 40-59. |
| `Backends.ConsistentCatModsAccepted` | megalodon/backends.py:34-44 | A cat-mod model whose alphabet is as long as its counts say is accepted on either path. |
| `Backends.FlappieModCount` | megalodon/backends.py:39-49 | With consistent counts, flappie's `n_mods = sum(can_nmods)` equals the number of `mod_long_names`. |
| `Backends.ModelAlphabetRoundTrip` | megalodon/backends.py:113-129 | For every constructed cat-mod model, the canonical alphabet and `can_base_mods` rebuild `output_alphabet`. |
| `Backends.ModelLabelsMatchLists` | megalodon/backends.py:119-128 | In a constructed taiyaki cat-mod model, the t-th modification of a canonical base has label t. |
| `Backends.ValidModelDispatches` | megalodon/backends.py:159-182 | A constructed model always reaches its backend. If the backend call returns, so does `run_model`. "Invalid model type." can only come from the backend itself. |
| `Backends.FlappieCatModAsWritten` | megalodon/backends.py:34-56 | The branch as written always fails. It gives `IndexError` exactly when an offset is out of range, and otherwise `AttributeError`, because `can_base_mods` is not among the attributes it assigned. |
| `Backends.FlappieCatModAsWrittenFails` | megalodon/backends.py:50-56 | As written, the flappie cat-mod branch raises `AttributeError` even for a consistent model that the corrected constructor accepts. |

## Left out

- Signal extraction (`extract_read_data`, `med_mad` and scaling): HDF5 file I/O and float32 statistics.
- `prep_model_worker`: only foreign calls (loading the model, `torch.device`, CUDA set-up). An inference before it raises `AttributeError` on `self.model` inside the `try`. The taiyaki outcome parameter covers that case.
- The inference calls `flappy.RawTable`/`run_network` and `tai_run_model`: they are outcome parameters of `RunModel`, and the raw signal is not modelled.
- `torch.cuda.empty_cache` and the device comparison guarding it: device memory management with no effect on the result.
- Imports of `flappy`, `taiyaki` and `torch`, and loading the taiyaki model. Their failures are not modelled. The `ImportError` fallback for `GlobalNormFlipFlopCatMod` folds into `FinalLayer.isCatMod`.
- Running the worker processes: only the device assignment is modelled.
- The output-name constants and the `__main__` blocks.
- `MegalodonHelper.NStateToNBase`: it is exact integer arithmetic, so float rounding of `np.sqrt` for very large state counts is not modelled. A negative state count is not modelled either.
- `Backends.NewModelInfo`: requires the symbols of a cat-mod alphabet to be distinct. Otherwise the flappie membership test and the taiyaki index test disagree, and dictionary keys collide.
- `AlphabetResolution.ResolveModRuns`: requires distinct symbols, for the same reason.
- `AlphabetResolution.CollectModsBySymbol`: requires distinct symbols, for the same reason.
- `Backends.ModelInfo.Flappie`: stores `can_base_mods` as the branch evidently intended. It also sets attributes that Python never creates on that path as empty values: `fn`, `str_to_int_mod_labels`, the chunk parameters and `devices`, and for a plain model `output_alphabet`, `can_nmods`, `can_indices` and `can_base_mods`.
- `Backends.ModelInfo.Taiyaki`: it sets `name` and `can_nmods`, which Python does not store on that path, to empty values. For a plain layer it also sets `can_indices` and `can_base_mods` to empty values.
- Integer widths: counts, sizes and `num_proc` are unbounded naturals. numpy's fixed-width integers and a negative `num_proc` are not modelled.
- `Backends.TaiyakiError`: exceptions outside the modelled classes are one `OtherError` value, so a subclass of `AttributeError` or `RuntimeError` hidden inside it is passed on rather than mapped to `MegaError`.

## Findings

| source | as written | input that shows it | evidently intended | confidence | as-written member | corrected member |
|---|---|---|---|---|---|---|
| megalodon/backends.py:50-56 | The loop fills `self.can_base_mod`, then line 56 reads `self.can_base_mods`, which this branch never assigned, so it raises `AttributeError` | `flappie_model_name='r941_cat_mod'` with any consistent `get_cat_mods()` result, e.g. counts `[1,0,0,0]` and alphabet `AZCGT` | `self.can_base_mods = dict(self.can_base_mod)`: a plain map from each canonical base to its modification symbols | high (not executed) | `Backends.FlappieCatModAsWrittenFails` | `Backends.ModelInfo.Flappie` |
