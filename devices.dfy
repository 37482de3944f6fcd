/** The split of worker processes over compute devices done by
    `ModelInfo.__init__` on the taiyaki path: every device is first given
    `ceil(num_proc / len(devices))` processes, the surplus is taken back one
    process at a time from the last devices, and each device id is then
    repeated once per process it serves. */
module DeviceSplit {
  import opened Seqs

  /** `np.ceil(num_proc / len(devices))`, taken in exact arithmetic. */
  function CeilDiv(p: nat, d: nat): (c: nat)
    requires d > 0
    ensures c * d >= p
    ensures c == 0 || (c - 1) * d < p
  {
    (p + d - 1) / d
  }

  /** The counts the source ends with: the first `d - x` devices keep the
      ceiling and the last `x` get one fewer, where `x = ceil * d - p` is the
      surplus. */
  function BalancedCounts(p: nat, d: nat): (counts: seq<nat>)
    requires d > 0
    ensures |counts| == d
  {
    var c := CeilDiv(p, d);
    var keep := d - (c * d - p);
    seq(d, j requires 0 <= j < d => if j < keep then c else c - 1)
  }

  /** The surplus is always smaller than the number of devices, so at least
      the first device keeps the ceiling. */
  lemma SurplusBelowDevices(p: nat, d: nat)
    requires d > 0
    ensures 0 <= CeilDiv(p, d) * d - p < d
    ensures CeilDiv(p, d) * d - p > 0 ==> CeilDiv(p, d) >= 1
  {
    var c := CeilDiv(p, d);
    if c > 0 {
      assert (c - 1) * d == c * d - d;
    }
  }

  /** The counts add up to the number of processes: the `assert` that
      follows the split in the source always holds. */
  lemma SumBalanced(p: nat, d: nat)
    requires d > 0
    ensures Sum(BalancedCounts(p, d)) == p
  {
    var c := CeilDiv(p, d);
    var x := c * d - p;
    SurplusBelowDevices(p, d);
    var counts := BalancedCounts(p, d);
    if x == 0 {
      SumConstant(counts, c);
    } else {
      var high, low := counts[..d - x], counts[d - x..];
      assert counts == high + low;
      SumAppend(high, low);
      SumConstant(high, c);
      SumConstant(low, c - 1);
      BlockTotal(c, d, x);
    }
  }

  lemma BlockTotal(c: int, d: int, x: int)
    ensures (d - x) * c + x * (c - 1) == c * d - x
  {
    assert (d - x) * c == d * c - x * c;
    assert x * (c - 1) == x * c - x;
  }

  /** Each device gets the ceiling or one fewer, the counts never increase
      along the device list, and the first device gets the ceiling. */
  lemma BalancedCountsShape(p: nat, d: nat, j: nat, j': nat)
    requires d > 0 && j <= j' < d
    ensures var counts, c := BalancedCounts(p, d), CeilDiv(p, d);
      && (counts[j] == c || counts[j] == c - 1)
      && counts[j] >= counts[j']
      && counts[0] == c
  {
    SurplusBelowDevices(p, d);
  }

  /** When the devices divide the processes evenly every device gets the
      same share. */
  lemma EvenSplit(p: nat, d: nat, j: nat)
    requires d > 0 && p % d == 0 && j < d
    ensures BalancedCounts(p, d)[j] == p / d
  {
    var m := p / d;
    assert p == m * d;
    assert CeilDiv(p, d) == m by {
      CeilOfMultiple(m, d);
    }
  }

  /** The ceiling of an exact quotient is the quotient itself. */
  lemma CeilOfMultiple(m: nat, d: nat)
    requires d > 0
    ensures CeilDiv(m * d, d) == m
  {
    var c := CeilDiv(m * d, d);
    if c > m {
      MulMonotone(m, c - 1, d);
    } else if c < m {
      MulMonotone(c + 1, m, d);
    }
  }

  lemma MulMonotone(a: nat, b: nat, d: nat)
    requires a <= b
    ensures a * d <= b * d
  {
  }

  /** The in-place computation of lines 79-84: fill an array with the
      ceiling, then decrement its last `ceil * d - p` entries
      (`procs_per_device[-(...):] -= 1`). */
  method ProcsPerDevice(numProc: nat, nDevices: nat) returns (counts: seq<nat>)
    requires nDevices > 0
    ensures counts == BalancedCounts(numProc, nDevices)
    ensures Sum(counts) == numProc
  {
    var base := CeilDiv(numProc, nDevices);
    var procs := new nat[nDevices](_ => base);
    SurplusBelowDevices(numProc, nDevices);
    var surplus := base * nDevices - numProc;
    var keep := nDevices - surplus;
    if surplus > 0 {
      var j := keep;
      while j < nDevices
        invariant keep <= j <= nDevices
        invariant forall t | 0 <= t < nDevices :: procs[t] == if keep <= t < j then base - 1 else base
      {
        procs[j] := procs[j] - 1;
        j := j + 1;
      }
    }
    counts := procs[..];
    assert counts == BalancedCounts(numProc, nDevices);
    SumBalanced(numProc, nDevices);
  }

  /** `np.repeat(devices, counts)`: each device id written out as many times
      as its count, in list order. */
  function RepeatDevices(devices: seq<int>, counts: seq<nat>): (r: seq<int>)
    requires |devices| == |counts|
    ensures |r| == Sum(counts)
    ensures forall i | 0 <= i < |r| :: r[i] in devices
  {
    if devices == [] then []
    else
      var rest := RepeatDevices(devices[1..], counts[1..]);
      assert forall i | 0 <= i < |rest| :: rest[i] in devices by {
        forall i | 0 <= i < |rest|
          ensures rest[i] in devices
        {
          assert rest[i] in devices[1..];
        }
      }
      Repeat(devices[0], counts[0]) + rest
  }

  /** Where device j's block starts: the processes of the devices before
      it. */
  function Offset(counts: seq<nat>, j: nat): (o: nat)
    requires j <= |counts|
    ensures o <= Sum(counts)
  {
    SumPrefixBound(counts, j);
    SumNonNegative(counts[..j]);
    Sum(counts[..j])
  }

  /** Device j occupies the contiguous block that starts after the
      processes of the devices before it. */
  lemma {:induction false} RepeatDevicesBlock(devices: seq<int>, counts: seq<nat>, j: nat, t: nat)
    requires |devices| == |counts| && j < |devices| && t < counts[j]
    ensures Offset(counts, j) + t < |RepeatDevices(devices, counts)|
    ensures RepeatDevices(devices, counts)[Offset(counts, j) + t] == devices[j]
  {
    var r := RepeatDevices(devices, counts);
    var r0 := Repeat(devices[0], counts[0]);
    assert r == r0 + RepeatDevices(devices[1..], counts[1..]);
    if j == 0 {
      assert counts[..0] == [];
    } else {
      RepeatDevicesBlock(devices[1..], counts[1..], j - 1, t);
      assert counts[..j] == [counts[0]] + counts[1..][..j - 1];
      SumAppend([counts[0]], counts[1..][..j - 1]);
      SumPrefixBound(counts, j);
    }
  }

  lemma SumPrefixBound(counts: seq<nat>, j: nat)
    requires j <= |counts|
    ensures Sum(counts[..j]) <= Sum(counts)
  {
    assert counts == counts[..j] + counts[j..];
    SumAppend(counts[..j], counts[j..]);
    SumNonNegative(counts[j..]);
  }

  /** `process_devices` of the taiyaki path. */
  function ProcessDevices(devices: seq<int>, numProc: nat): (r: seq<int>)
    requires |devices| > 0
    ensures |r| == numProc
    ensures forall i | 0 <= i < |r| :: r[i] in devices
  {
    SumBalanced(numProc, |devices|);
    RepeatDevices(devices, BalancedCounts(numProc, |devices|))
  }

  /** One entry per process, each naming a listed device, each device
      holding a contiguous block of the ceiling or one fewer, in list
      order. */
  lemma ProcessDevicesSplit(devices: seq<int>, numProc: nat, j: nat, t: nat)
    requires |devices| > 0
    ensures |ProcessDevices(devices, numProc)| == numProc
    ensures forall i | 0 <= i < numProc :: ProcessDevices(devices, numProc)[i] in devices
    ensures var counts := BalancedCounts(numProc, |devices|);
      j < |devices| && t < counts[j] ==>
        Offset(counts, j) + t < numProc && ProcessDevices(devices, numProc)[Offset(counts, j) + t] == devices[j]
  {
    var counts := BalancedCounts(numProc, |devices|);
    SumBalanced(numProc, |devices|);
    if j < |devices| && t < counts[j] {
      RepeatDevicesBlock(devices, counts, j, t);
    }
  }
}
