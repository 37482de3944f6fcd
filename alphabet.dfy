/** Alphabet resolution of `ModelInfo.__init__` for modified-base ("cat-mod")
    flip-flop models. The output alphabet is a concatenation of runs: each
    canonical base followed by the symbols of its modifications. From the
    per-canonical-base modification counts the constructor derives the start
    offset of every run (`can_indices`), the canonical alphabet, the map from
    each canonical base to its modification symbols (`can_base_mods`) and, on
    the taiyaki path, each modification symbol's 0-based position within its
    run (`str_to_int_mod_labels`). */
module AlphabetResolution {
  import opened Seqs

  /** Start offsets of consecutive runs, the first at `from`, each run one
      canonical symbol plus `counts[k]` modification symbols long. */
  function Starts(counts: seq<nat>, from: nat): (r: seq<nat>)
    ensures |r| == |counts|
    ensures counts != [] ==> r[0] == from
    ensures forall k {:trigger counts[k]} | 0 <= k < |r| - 1 :: r[k + 1] == r[k] + counts[k] + 1
  {
    if counts == [] then [] else [from] + Starts(counts[1..], from + counts[0] + 1)
  }

  /** `can_indices = np.cumsum(np.concatenate([[0], can_nmods[:-1] + 1]))`.
      For an empty `can_nmods` the concatenation is `[0]`, so there is always
      at least one offset. */
  function CanIndices(canNmods: seq<nat>): (idx: seq<nat>)
    ensures |idx| == if canNmods == [] then 1 else |canNmods|
    ensures idx[0] == 0
    ensures forall k {:trigger canNmods[k]} | 0 <= k < |idx| - 1 :: idx[k + 1] == idx[k] + canNmods[k] + 1
  {
    if canNmods == [] then [0] else Starts(canNmods, 0)
  }

  /** The k-th offset is the number of symbols in the runs before it. */
  lemma {:induction false} CanIndicesClosedForm(canNmods: seq<nat>, k: nat)
    requires k < |CanIndices(canNmods)|
    ensures CanIndices(canNmods)[k] == Sum(canNmods[..k]) + k
  {
    if k > 0 {
      var idx := CanIndices(canNmods);
      CanIndicesClosedForm(canNmods, k - 1);
      SumPrefixStep(canNmods, k);
    }
  }

  /** Offsets that split an alphabet of `n` symbols into runs: the first run
      starts at 0, the offsets strictly increase, and the last one is a
      position of the alphabet. */
  predicate RunStarts(idx: seq<nat>, n: nat)
  {
    && |idx| >= 1
    && idx[0] == 0
    && idx[|idx| - 1] < n
    && forall a, b | 0 <= a < b < |idx| :: idx[a] < idx[b]
  }

  /** Every offset of `can_indices` is a position of the alphabet, which is
      what `output_alphabet[b_i]` needs; the offsets increase, so it is enough
      that the last one is. Otherwise the constructor raises `IndexError`. */
  predicate IndicesInRange(canNmods: seq<nat>, n: nat)
  {
    var idx := CanIndices(canNmods);
    idx[|idx| - 1] < n
  }

  lemma {:induction false} IncreasingSteps(idx: seq<nat>, a: nat, b: nat)
    requires forall k | 0 <= k < |idx| - 1 :: idx[k] < idx[k + 1]
    requires a < b < |idx|
    ensures idx[a] < idx[b]
    decreases b - a
  {
    if a + 1 < b {
      IncreasingSteps(idx, a + 1, b);
    }
  }

  lemma CanIndicesAreRunStarts(canNmods: seq<nat>, n: nat)
    requires IndicesInRange(canNmods, n)
    ensures RunStarts(CanIndices(canNmods), n)
  {
    var idx := CanIndices(canNmods);
    forall k | 0 <= k < |idx| - 1
      ensures idx[k] < idx[k + 1]
    {
      assert idx[k + 1] == idx[k] + canNmods[k] + 1;
    }
    forall a, b | 0 <= a < b < |idx|
      ensures idx[a] < idx[b]
    {
      IncreasingSteps(idx, a, b);
    }
  }

  /** Where run k ends (exclusively): at the next run's start, or at the end
      of the alphabet for the last run. */
  function RunEnd(idx: seq<nat>, k: nat, n: nat): nat
    requires k < |idx|
  {
    if k + 1 < |idx| then idx[k + 1] else n
  }

  /** Position p lies in run k. */
  predicate InRun(idx: seq<nat>, n: nat, k: nat, p: nat)
    requires k < |idx|
  {
    idx[k] <= p < RunEnd(idx, k, n)
  }

  /** Runs do not overlap: a position lies in at most one run. */
  lemma RunsDisjoint(idx: seq<nat>, n: nat)
    requires RunStarts(idx, n)
    ensures forall k: nat, k': nat, p: nat | k < |idx| && k' < |idx| && InRun(idx, n, k, p) && InRun(idx, n, k', p) :: k == k'
  {
  }

  /** The canonical alphabet: the symbols at the run starts
      (`''.join(output_alphabet[b_i] for b_i in can_indices)`). */
  function CanAlphabet(alphabet: string, idx: seq<nat>): (s: string)
    requires RunStarts(idx, |alphabet|)
    ensures |s| == |idx| && s[0] == alphabet[0]
  {
    seq(|idx|, k requires 0 <= k < |idx| => alphabet[idx[k]])
  }

  /** With distinct symbols, being at a run start (the taiyaki test
      `base_i in can_indices`) and being a canonical symbol (the flappie test
      `base in can_bases`) are the same thing. */
  lemma SymbolMembershipAgrees(alphabet: string, idx: seq<nat>, i: nat)
    requires Distinct(alphabet) && RunStarts(idx, |alphabet|) && i < |alphabet|
    ensures alphabet[i] in CanAlphabet(alphabet, idx) <==> i in idx
  {
    var canBases := CanAlphabet(alphabet, idx);
    if alphabet[i] in canBases {
      var k :| 0 <= k < |canBases| && canBases[k] == alphabet[i];
      assert idx[k] == i;
    }
    if i in idx {
      var k :| 0 <= k < |idx| && idx[k] == i;
      assert canBases[k] == alphabet[i];
    }
  }

  /** The modification symbols of run k: those strictly after its canonical
      base and before the next run. */
  function Run(alphabet: string, idx: seq<nat>, k: nat): string
    requires RunStarts(idx, |alphabet|) && k < |idx|
  {
    alphabet[idx[k] + 1 .. RunEnd(idx, k, |alphabet|)]
  }

  /** `can_base_mods` built from the runs before run k: each canonical base
      with a non-empty run maps to that run. */
  function ModsOfRuns(alphabet: string, idx: seq<nat>, k: nat): map<char, string>
    requires RunStarts(idx, |alphabet|) && k <= |idx|
  {
    if k == 0 then map[]
    else
      var m := ModsOfRuns(alphabet, idx, k - 1);
      if Run(alphabet, idx, k - 1) == [] then m else m[alphabet[idx[k - 1]] := Run(alphabet, idx, k - 1)]
  }

  /** The finished `can_base_mods`. Canonical bases without modifications are
      absent, since the source fills a `defaultdict(list)` only by appending. */
  function CanBaseModsOf(alphabet: string, idx: seq<nat>): map<char, string>
    requires RunStarts(idx, |alphabet|)
  {
    ModsOfRuns(alphabet, idx, |idx|)
  }

  /** Labels of the symbols at positions lo .. hi-1, counted from 0 at lo. */
  function Labels(alphabet: string, lo: nat, hi: nat): map<char, nat>
    requires lo <= hi <= |alphabet|
    decreases hi - lo
  {
    if hi == lo then map[] else Labels(alphabet, lo, hi - 1)[alphabet[hi - 1] := hi - 1 - lo]
  }

  /** `str_to_int_mod_labels` built from the runs before run k. */
  function LabelsOfRuns(alphabet: string, idx: seq<nat>, k: nat): map<char, nat>
    requires RunStarts(idx, |alphabet|) && k <= |idx|
  {
    if k == 0 then map[]
    else LabelsOfRuns(alphabet, idx, k - 1) + Labels(alphabet, idx[k - 1] + 1, RunEnd(idx, k - 1, |alphabet|))
  }

  /** The finished `str_to_int_mod_labels`. */
  function ModLabelsOf(alphabet: string, idx: seq<nat>): map<char, nat>
    requires RunStarts(idx, |alphabet|)
  {
    LabelsOfRuns(alphabet, idx, |idx|)
  }

  /** No canonical base of run j or later is a key before run j is built. */
  lemma {:induction false} NotYetKey(alphabet: string, idx: seq<nat>, k: nat, j: nat)
    requires Distinct(alphabet) && RunStarts(idx, |alphabet|) && k <= j < |idx|
    ensures alphabet[idx[j]] !in ModsOfRuns(alphabet, idx, k)
  {
    if k > 0 {
      NotYetKey(alphabet, idx, k - 1, j);
      assert idx[k - 1] < idx[j];
    }
  }

  /** Walking the alphabet from inside run k, position i starts a new run
      exactly when it is the next run's offset. */
  lemma RunStartAfter(idx: seq<nat>, n: nat, k: nat, i: nat)
    requires RunStarts(idx, n) && k < |idx| && idx[k] < i <= RunEnd(idx, k, n) && i < n
    ensures i in idx <==> k + 1 < |idx| && i == idx[k + 1]
  {
    if i in idx {
      var j :| 0 <= j < |idx| && idx[j] == i;
    }
  }

  lemma MergeUpdate<K, V>(a: map<K, V>, b: map<K, V>, x: K, v: V)
    ensures (a + b)[x := v] == a + b[x := v]
  {
  }

  lemma MergeEmpty<K, V>(a: map<K, V>)
    ensures a + map[] == a
  {
  }

  /** The loop of the taiyaki path (`for base_i, base in
      enumerate(output_alphabet)`): a run start makes its symbol the current
      canonical base and resets the modification counter; any other symbol is
      labelled with the counter and appended to the current base's list. */
  method ResolveModRuns(alphabet: string, canIndices: seq<nat>)
      returns (canBaseMods: map<char, string>, labels: map<char, nat>)
    requires Distinct(alphabet) && RunStarts(canIndices, |alphabet|)
    ensures canBaseMods == CanBaseModsOf(alphabet, canIndices)
    ensures labels == ModLabelsOf(alphabet, canIndices)
  {
    var n := |alphabet|;
    // position 0 always opens the first run, since can_indices[0] == 0
    canBaseMods, labels := map[], map[];
    var currCanBase := alphabet[0];
    var currModI: nat := 0;
    ghost var k: nat := 0;
    for i := 1 to n
      invariant k < |canIndices|
      invariant canIndices[k] < i <= RunEnd(canIndices, k, n)
      invariant currCanBase == alphabet[canIndices[k]] && currModI == i - canIndices[k] - 1
      invariant canBaseMods == ModsInRun(alphabet, canIndices, k, i)
      invariant labels == LabelsOfRuns(alphabet, canIndices, k) + Labels(alphabet, canIndices[k] + 1, i)
    {
      RunStartAfter(canIndices, n, k, i);
      if i in canIndices {
        ModsInRunNext(alphabet, canIndices, k);
        k := k + 1;
        assert labels == LabelsOfRuns(alphabet, canIndices, k) + Labels(alphabet, canIndices[k] + 1, i + 1) by {
          assert Labels(alphabet, canIndices[k] + 1, i + 1) == map[];
          MergeEmpty(LabelsOfRuns(alphabet, canIndices, k));
        }
        currCanBase := alphabet[i];
        currModI := 0;
      } else {
        ModsInRunStep(alphabet, canIndices, k, i);
        labels := labels[alphabet[i] := currModI];
        assert labels == LabelsOfRuns(alphabet, canIndices, k) + Labels(alphabet, canIndices[k] + 1, i + 1) by {
          MergeUpdate(LabelsOfRuns(alphabet, canIndices, k), Labels(alphabet, canIndices[k] + 1, i), alphabet[i], currModI);
        }
        var mods := if currCanBase in canBaseMods then canBaseMods[currCanBase] else [];
        canBaseMods := canBaseMods[currCanBase := mods + [alphabet[i]]];
        currModI := currModI + 1;
      }
    }
    LastRunDone(alphabet, canIndices, k);
  }

  /** Once the whole alphabet has been seen inside run k, run k is the last
      one and the maps built so far are the finished ones. */
  lemma LastRunDone(alphabet: string, idx: seq<nat>, k: nat)
    requires RunStarts(idx, |alphabet|) && k < |idx| && idx[k] < |alphabet| <= RunEnd(idx, k, |alphabet|)
    ensures k == |idx| - 1
    ensures ModsInRun(alphabet, idx, k, |alphabet|) == CanBaseModsOf(alphabet, idx)
    ensures LabelsOfRuns(alphabet, idx, k) + Labels(alphabet, idx[k] + 1, |alphabet|) == ModLabelsOf(alphabet, idx)
  {
  }

  /** The loop of the flappie path (`for base in output_alphabet`), which
      tells canonical symbols by membership in the canonical alphabet rather
      than by position; with distinct symbols the two tests agree, so it
      builds the same `can_base_mods`. */
  method CollectModsBySymbol(alphabet: string, canBases: string, ghost canIndices: seq<nat>)
      returns (canBaseMods: map<char, string>)
    requires Distinct(alphabet) && RunStarts(canIndices, |alphabet|)
    requires canBases == CanAlphabet(alphabet, canIndices)
    ensures canBaseMods == CanBaseModsOf(alphabet, canIndices)
  {
    var n := |alphabet|;
    // position 0 always holds a canonical symbol, since can_indices[0] == 0
    canBaseMods := map[];
    var currCanBase := alphabet[0];
    ghost var k: nat := 0;
    for i := 1 to n
      invariant k < |canIndices|
      invariant canIndices[k] < i <= RunEnd(canIndices, k, n)
      invariant currCanBase == alphabet[canIndices[k]]
      invariant canBaseMods == ModsInRun(alphabet, canIndices, k, i)
    {
      RunStartAfter(canIndices, n, k, i);
      SymbolMembershipAgrees(alphabet, canIndices, i);
      if alphabet[i] in canBases {
        ModsInRunNext(alphabet, canIndices, k);
        k := k + 1;
        currCanBase := alphabet[i];
      } else {
        ModsInRunStep(alphabet, canIndices, k, i);
        var mods := if currCanBase in canBaseMods then canBaseMods[currCanBase] else [];
        canBaseMods := canBaseMods[currCanBase := mods + [alphabet[i]]];
      }
    }
    LastRunDone(alphabet, canIndices, k);
  }

  /** `can_base_mods` in the middle of run k, once the symbols before
      position i have been seen: the finished runs before k, and run k's
      symbols so far. */
  function ModsInRun(alphabet: string, idx: seq<nat>, k: nat, i: nat): map<char, string>
    requires RunStarts(idx, |alphabet|) && k < |idx| && idx[k] < i <= RunEnd(idx, k, |alphabet|)
  {
    var m := ModsOfRuns(alphabet, idx, k);
    if idx[k] + 1 < i then m[alphabet[idx[k]] := alphabet[idx[k] + 1 .. i]] else m
  }

  /** Seeing a modification symbol of run k appends it to run k's list. */
  lemma ModsInRunStep(alphabet: string, idx: seq<nat>, k: nat, i: nat)
    requires Distinct(alphabet) && RunStarts(idx, |alphabet|) && k < |idx|
    requires idx[k] < i < RunEnd(idx, k, |alphabet|)
    ensures var m, c := ModsInRun(alphabet, idx, k, i), alphabet[idx[k]];
      ModsInRun(alphabet, idx, k, i + 1) == m[c := (if c in m then m[c] else []) + [alphabet[i]]]
  {
    NotYetKey(alphabet, idx, k, k);
    assert alphabet[idx[k] + 1 .. i + 1] == alphabet[idx[k] + 1 .. i] + [alphabet[i]];
  }

  /** Reaching the start of run k + 1 completes run k. */
  lemma ModsInRunNext(alphabet: string, idx: seq<nat>, k: nat)
    requires RunStarts(idx, |alphabet|) && k + 1 < |idx|
    ensures ModsInRun(alphabet, idx, k + 1, idx[k + 1] + 1) == ModsInRun(alphabet, idx, k, idx[k + 1])
  {
  }

  /** A lookup in `can_base_mods` the way a `defaultdict(list)` answers it:
      the list, or the empty list for a base without modifications. */
  function ModsOf(canBaseMods: map<char, string>, c: char): (mods: string)
    ensures c !in canBaseMods ==> mods == []
  {
    if c in canBaseMods then canBaseMods[c] else []
  }

  /** The runs before run k record run j (j < k) under its canonical base,
      and only if that run is non-empty. */
  lemma {:induction false} ModsOfRunsAt(alphabet: string, idx: seq<nat>, k: nat, j: nat)
    requires Distinct(alphabet) && RunStarts(idx, |alphabet|) && j < k <= |idx|
    ensures alphabet[idx[j]] in ModsOfRuns(alphabet, idx, k) <==> Run(alphabet, idx, j) != []
    ensures ModsOf(ModsOfRuns(alphabet, idx, k), alphabet[idx[j]]) == Run(alphabet, idx, j)
  {
    if k - 1 == j {
      NotYetKey(alphabet, idx, j, j);
    } else {
      ModsOfRunsAt(alphabet, idx, k - 1, j);
      assert alphabet[idx[j]] != alphabet[idx[k - 1]];
    }
  }

  /** Each canonical base maps to exactly the modification symbols of its
      own run, in alphabet order; it is a key only when that run is
      non-empty. */
  lemma CanBaseModsOfRun(alphabet: string, idx: seq<nat>, j: nat)
    requires Distinct(alphabet) && RunStarts(idx, |alphabet|) && j < |idx|
    ensures alphabet[idx[j]] in CanBaseModsOf(alphabet, idx) <==> Run(alphabet, idx, j) != []
    ensures ModsOf(CanBaseModsOf(alphabet, idx), alphabet[idx[j]]) == Run(alphabet, idx, j)
  {
    ModsOfRunsAt(alphabet, idx, |idx|, j);
  }

  /** A symbol that is not the canonical base of any run before k is not a
      key of the runs before k. */
  lemma {:induction false} NotCanonicalNotKey(alphabet: string, idx: seq<nat>, k: nat, c: char)
    requires RunStarts(idx, |alphabet|) && k <= |idx|
    requires forall j | 0 <= j < k :: alphabet[idx[j]] != c
    ensures c !in ModsOfRuns(alphabet, idx, k)
  {
    if k > 0 {
      NotCanonicalNotKey(alphabet, idx, k - 1, c);
    }
  }

  /** Every key of `can_base_mods` is a canonical base. */
  lemma CanBaseModsKeys(alphabet: string, idx: seq<nat>)
    requires RunStarts(idx, |alphabet|)
    ensures forall c | c in CanBaseModsOf(alphabet, idx) :: c in CanAlphabet(alphabet, idx)
  {
    var canBases := CanAlphabet(alphabet, idx);
    forall c | c !in canBases
      ensures c !in CanBaseModsOf(alphabet, idx)
    {
      forall j | 0 <= j < |idx|
        ensures alphabet[idx[j]] != c
      {
        assert canBases[j] == alphabet[idx[j]];
      }
      NotCanonicalNotKey(alphabet, idx, |idx|, c);
    }
  }

  /** A modification symbol lies in the list of its own run's canonical base
      and in no other canonical base's list. */
  lemma ModSymbolInOneList(alphabet: string, idx: seq<nat>, k: nat, p: nat, j: nat)
    requires Distinct(alphabet) && RunStarts(idx, |alphabet|) && k < |idx| && j < |idx|
    requires idx[k] < p < RunEnd(idx, k, |alphabet|)
    ensures alphabet[p] in ModsOf(CanBaseModsOf(alphabet, idx), alphabet[idx[j]]) <==> j == k
  {
    var n := |alphabet|;
    CanBaseModsOfRun(alphabet, idx, k);
    CanBaseModsOfRun(alphabet, idx, j);
    assert Run(alphabet, idx, k)[p - idx[k] - 1] == alphabet[p];
    if alphabet[p] in Run(alphabet, idx, j) {
      var t :| 0 <= t < |Run(alphabet, idx, j)| && Run(alphabet, idx, j)[t] == alphabet[p];
      assert alphabet[idx[j] + 1 + t] == alphabet[p];
      assert InRun(idx, n, j, p) && InRun(idx, n, k, p);
      RunsDisjoint(idx, n);
    }
  }

  /** The labels of positions lo .. hi-1 count from 0 at lo. */
  lemma {:induction false} LabelsAt(alphabet: string, lo: nat, hi: nat, p: nat)
    requires Distinct(alphabet) && lo <= p < hi <= |alphabet|
    ensures alphabet[p] in Labels(alphabet, lo, hi) && Labels(alphabet, lo, hi)[alphabet[p]] == p - lo
    decreases hi - lo
  {
    if p < hi - 1 {
      LabelsAt(alphabet, lo, hi - 1, p);
      assert alphabet[p] != alphabet[hi - 1];
    }
  }

  /** Only the symbols at positions lo .. hi-1 are labelled. */
  lemma {:induction false} LabelsOnlyThere(alphabet: string, lo: nat, hi: nat, c: char)
    requires lo <= hi <= |alphabet|
    requires forall q | lo <= q < hi :: alphabet[q] != c
    ensures c !in Labels(alphabet, lo, hi)
    decreases hi - lo
  {
    if lo < hi {
      LabelsOnlyThere(alphabet, lo, hi - 1, c);
    }
  }

  lemma {:induction false} LabelsOfRunsAt(alphabet: string, idx: seq<nat>, k: nat, j: nat, p: nat)
    requires Distinct(alphabet) && RunStarts(idx, |alphabet|) && j < k <= |idx|
    requires idx[j] < p < RunEnd(idx, j, |alphabet|)
    ensures alphabet[p] in LabelsOfRuns(alphabet, idx, k)
    ensures LabelsOfRuns(alphabet, idx, k)[alphabet[p]] == p - idx[j] - 1
  {
    var n := |alphabet|;
    var prev, lo, hi := LabelsOfRuns(alphabet, idx, k - 1), idx[k - 1] + 1, RunEnd(idx, k - 1, n);
    assert LabelsOfRuns(alphabet, idx, k) == prev + Labels(alphabet, lo, hi);
    if k - 1 == j {
      LabelsAt(alphabet, lo, hi, p);
      MergeRight(prev, Labels(alphabet, lo, hi), alphabet[p]);
    } else {
      assert alphabet[p] !in Labels(alphabet, lo, hi) by {
        assert p < idx[j + 1] <= idx[k - 1];
        forall q | lo <= q < hi
          ensures alphabet[q] != alphabet[p]
        {
          assert p < q;
        }
        LabelsOnlyThere(alphabet, lo, hi, alphabet[p]);
      }
      LabelsOfRunsAt(alphabet, idx, k - 1, j, p);
      MergeLeft(prev, Labels(alphabet, lo, hi), alphabet[p]);
    }
  }

  lemma MergeLeft<K, V>(a: map<K, V>, b: map<K, V>, x: K)
    requires x in a && x !in b
    ensures x in a + b && (a + b)[x] == a[x]
  {
  }

  lemma MergeRight<K, V>(a: map<K, V>, b: map<K, V>, x: K)
    requires x in b
    ensures x in a + b && (a + b)[x] == b[x]
  {
  }

  /** `str_to_int_mod_labels` gives the symbol at a non-start position of run
      k its 0-based place in the run: the count restarts after every
      canonical base. */
  lemma ModLabelsOfRun(alphabet: string, idx: seq<nat>, k: nat, p: nat)
    requires Distinct(alphabet) && RunStarts(idx, |alphabet|) && k < |idx|
    requires idx[k] < p < RunEnd(idx, k, |alphabet|)
    ensures alphabet[p] in ModLabelsOf(alphabet, idx)
    ensures ModLabelsOf(alphabet, idx)[alphabet[p]] == p - idx[k] - 1
  {
    LabelsOfRunsAt(alphabet, idx, |idx|, k, p);
  }

  /** The two outputs agree: the t-th modification listed for a canonical
      base carries label t. */
  lemma LabelsMatchLists(alphabet: string, idx: seq<nat>, k: nat, t: nat)
    requires Distinct(alphabet) && RunStarts(idx, |alphabet|) && k < |idx|
    requires t < |ModsOf(CanBaseModsOf(alphabet, idx), alphabet[idx[k]])|
    ensures ModsOf(CanBaseModsOf(alphabet, idx), alphabet[idx[k]])[t] in ModLabelsOf(alphabet, idx)
    ensures ModLabelsOf(alphabet, idx)[ModsOf(CanBaseModsOf(alphabet, idx), alphabet[idx[k]])[t]] == t
  {
    CanBaseModsOfRun(alphabet, idx, k);
    ModLabelsOfRun(alphabet, idx, k, idx[k] + 1 + t);
  }

  /** Writes each canonical base followed by its modification list. */
  function Rebuild(canBases: string, canBaseMods: map<char, string>): (s: string)
    ensures |s| >= |canBases|
  {
    if canBases == [] then []
    else [canBases[0]] + ModsOf(canBaseMods, canBases[0]) + Rebuild(canBases[1..], canBaseMods)
  }

  lemma {:induction false} RebuildFrom(alphabet: string, idx: seq<nat>, m: nat)
    requires Distinct(alphabet) && RunStarts(idx, |alphabet|) && m <= |idx|
    ensures Rebuild(CanAlphabet(alphabet, idx)[m..], CanBaseModsOf(alphabet, idx))
      == if m == |idx| then [] else alphabet[idx[m]..]
    decreases |idx| - m
  {
    if m < |idx| {
      RebuildFrom(alphabet, idx, m + 1);
      RebuildHead(alphabet, idx, m);
    }
  }

  /** One step of the rebuild: run m's canonical base and its list, followed
      by what the later runs rebuild, give the alphabet from run m on. */
  lemma RebuildHead(alphabet: string, idx: seq<nat>, m: nat)
    requires Distinct(alphabet) && RunStarts(idx, |alphabet|) && m < |idx|
    requires Rebuild(CanAlphabet(alphabet, idx)[m + 1..], CanBaseModsOf(alphabet, idx))
      == if m + 1 == |idx| then [] else alphabet[idx[m + 1]..]
    ensures Rebuild(CanAlphabet(alphabet, idx)[m..], CanBaseModsOf(alphabet, idx)) == alphabet[idx[m]..]
  {
    var canBases, cbm := CanAlphabet(alphabet, idx), CanBaseModsOf(alphabet, idx);
    var cs, e := canBases[m..], RunEnd(idx, m, |alphabet|);
    assert Rebuild(cs, cbm) == [alphabet[idx[m]]] + alphabet[idx[m] + 1 .. e] + Rebuild(canBases[m + 1..], cbm) by {
      CanBaseModsOfRun(alphabet, idx, m);
      assert cs[0] == alphabet[idx[m]] && cs[1..] == canBases[m + 1..];
    }
    assert Rebuild(canBases[m + 1..], cbm) == alphabet[e..];
    SplitRun(alphabet, idx[m], e);
  }

  lemma SplitRun(s: string, i: nat, e: nat)
    requires i < e <= |s|
    ensures s[i..] == [s[i]] + s[i + 1 .. e] + s[e..]
  {
  }

  /** Round trip: the canonical alphabet and `can_base_mods` together give
      back the output alphabet. */
  lemma RebuildAlphabet(alphabet: string, idx: seq<nat>)
    requires Distinct(alphabet) && RunStarts(idx, |alphabet|)
    ensures Rebuild(CanAlphabet(alphabet, idx), CanBaseModsOf(alphabet, idx)) == alphabet
  {
    RebuildFrom(alphabet, idx, 0);
    assert CanAlphabet(alphabet, idx)[0..] == CanAlphabet(alphabet, idx);
  }

  /** The last run starts `can_nmods[-1] + 1` symbols before the end of an
      alphabet that is exactly as long as the counts say. */
  lemma LastOffset(canNmods: seq<nat>, n: nat)
    requires canNmods != [] && n == Sum(canNmods) + |canNmods|
    ensures CanIndices(canNmods)[|canNmods| - 1] + canNmods[|canNmods| - 1] + 1 == n
  {
    var last := |canNmods| - 1;
    CanIndicesClosedForm(canNmods, last);
    SumPrefixStep(canNmods, last + 1);
    assert canNmods[..last + 1] == canNmods;
  }

  /** When the alphabet is exactly as long as the counts say (one canonical
      symbol plus its modifications per run), every offset is in range and
      run k holds `can_nmods[k]` modification symbols. */
  lemma RunLengths(alphabet: string, canNmods: seq<nat>, k: nat)
    requires canNmods != [] && |alphabet| == Sum(canNmods) + |canNmods| && k < |canNmods|
    ensures IndicesInRange(canNmods, |alphabet|)
    ensures RunStarts(CanIndices(canNmods), |alphabet|)
    ensures |Run(alphabet, CanIndices(canNmods), k)| == canNmods[k]
  {
    var n, idx := |alphabet|, CanIndices(canNmods);
    LastOffset(canNmods, n);
    assert |idx| == |canNmods|;
    assert IndicesInRange(canNmods, n);
    CanIndicesAreRunStarts(canNmods, n);
    var e := if k + 1 < |idx| then idx[k + 1] else n;
    assert e == idx[k] + canNmods[k] + 1;
    RunLength(alphabet, idx, k, canNmods[k]);
  }

  lemma RunLength(alphabet: string, idx: seq<nat>, k: nat, len: nat)
    requires RunStarts(idx, |alphabet|) && k < |idx|
    requires RunEnd(idx, k, |alphabet|) == idx[k] + len + 1
    ensures |Run(alphabet, idx, k)| == len
  {
  }

  /** Python's `s[lo:hi]` for non-negative bounds: both ends are clamped to
      the length, and a slice whose end precedes its start is empty. */
  function PySlice(s: string, lo: nat, hi: nat): (r: string)
    ensures hi <= |s| && lo <= hi ==> |r| == hi - lo
    ensures |r| <= if hi < lo then 0 else hi - lo
  {
    var stop := if hi < |s| then hi else |s|;
    if stop <= lo then [] else s[lo..stop]
  }

  /** With both ends in range the Python slice is the plain slice. */
  lemma PySliceInRange(s: string, lo: nat, hi: nat)
    requires lo <= hi <= |s|
    ensures PySlice(s, lo, hi) == s[lo..hi]
  {
  }

  /** `mod_bases` of the flappie path over the first k pairs of
      `zip(can_indices, can_nmods)`: the slice of `can_nmods[j]` symbols after
      each canonical offset. */
  function ModBasesUpTo(alphabet: string, idx: seq<nat>, canNmods: seq<nat>, k: nat): (r: string)
    requires k <= |idx| && k <= |canNmods|
    ensures |r| <= Sum(canNmods[..k])
  {
    if k == 0 then []
    else
      SumPrefixStep(canNmods, k);
      ModBasesUpTo(alphabet, idx, canNmods, k - 1) + PySlice(alphabet, idx[k - 1] + 1, idx[k - 1] + 1 + canNmods[k - 1])
  }

  /** `mod_bases`. `zip` stops at the shorter sequence, and `can_indices`
      has at least as many entries as `can_nmods`, so every count is used
      and an empty `can_nmods` gives no symbols. */
  function ModBases(alphabet: string, canNmods: seq<nat>): (r: string)
    ensures |r| <= Sum(canNmods)
  {
    assert canNmods[..|canNmods|] == canNmods;
    ModBasesUpTo(alphabet, CanIndices(canNmods), canNmods, |canNmods|)
  }

  /** With consistent counts the k-th slice of `mod_bases` is run k. */
  lemma ModSliceIsRun(alphabet: string, canNmods: seq<nat>, k: nat)
    requires canNmods != [] && |alphabet| == Sum(canNmods) + |canNmods| && k < |canNmods|
    ensures RunStarts(CanIndices(canNmods), |alphabet|)
    ensures var idx := CanIndices(canNmods);
      PySlice(alphabet, idx[k] + 1, idx[k] + 1 + canNmods[k]) == Run(alphabet, idx, k)
    ensures |PySlice(alphabet, CanIndices(canNmods)[k] + 1, CanIndices(canNmods)[k] + 1 + canNmods[k])| == canNmods[k]
  {
    var idx := CanIndices(canNmods);
    RunLengths(alphabet, canNmods, k);
    PySliceInRange(alphabet, idx[k] + 1, idx[k] + 1 + canNmods[k]);
  }

  lemma {:induction false} ModBasesUpToLength(alphabet: string, canNmods: seq<nat>, k: nat)
    requires canNmods != [] && |alphabet| == Sum(canNmods) + |canNmods| && k <= |canNmods|
    ensures |ModBasesUpTo(alphabet, CanIndices(canNmods), canNmods, k)| == Sum(canNmods[..k])
  {
    if k > 0 {
      var idx := CanIndices(canNmods);
      var slice := PySlice(alphabet, idx[k - 1] + 1, idx[k - 1] + 1 + canNmods[k - 1]);
      assert |slice| == canNmods[k - 1] by {
        ModSliceIsRun(alphabet, canNmods, k - 1);
      }
      ModBasesUpToStep(alphabet, idx, canNmods, k);
      ModBasesUpToLength(alphabet, canNmods, k - 1);
      SumPrefixStep(canNmods, k);
    }
  }

  lemma ModBasesUpToStep(alphabet: string, idx: seq<nat>, canNmods: seq<nat>, k: nat)
    requires 0 < k <= |idx| && k <= |canNmods|
    ensures |ModBasesUpTo(alphabet, idx, canNmods, k)|
      == |ModBasesUpTo(alphabet, idx, canNmods, k - 1)| + |PySlice(alphabet, idx[k - 1] + 1, idx[k - 1] + 1 + canNmods[k - 1])|
  {
  }

  /** With consistent counts the flappie `mod_bases` holds `sum(can_nmods)`
      symbols, so `n_mods = can_nmods.sum()` is also the number of
      `mod_long_names`, as on the taiyaki path. */
  lemma ModBasesCount(alphabet: string, canNmods: seq<nat>)
    requires canNmods != [] && |alphabet| == Sum(canNmods) + |canNmods|
    ensures |ModBases(alphabet, canNmods)| == Sum(canNmods)
  {
    ModBasesUpToLength(alphabet, canNmods, |canNmods|);
    assert canNmods[..|canNmods|] == canNmods;
  }
}
