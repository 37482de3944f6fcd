/** The pure helpers of `megalodon_helper.py`: the nucleotide alphabet, the
    complement table and reverse complement, the flip-flop state count to base
    count relation, and the exception kinds raised across the backends. */
module MegalodonHelper {
  import opened Seqs

  /** `ALPHABET`: the four canonical nucleotides. */
  const ALPHABET: string := "ACGT"

  /** The exceptions the backends raise or let through. `MegaError` is the
      program's own error kind, carrying its message; the others are the
      Python built-in exceptions raised by the code paths that are modelled,
      and `OtherError` stands for any exception a foreign runtime raises that
      the backends do not translate. */
  datatype Exception =
    | MegaError(msg: string)
    | NotImplementedError(msg: string)
    | AttributeError
    | RuntimeError
    | TypeError
    | ZeroDivisionError
    | IndexError
    | OtherError(name: string)

  /** `COMP_BASES` applied by `str.translate`: A<->T and C<->G; every other
      character is left as it is. */
  function Complement(c: char): char
  {
    match c
    case 'A' => 'T'
    case 'C' => 'G'
    case 'G' => 'C'
    case 'T' => 'A'
    case _ => c
  }

  lemma ComplementPairs(c: char)
    ensures Complement('A') == 'T' && Complement('T') == 'A' && Complement('C') == 'G' && Complement('G') == 'C'
    ensures Complement(Complement(c)) == c
    ensures c in ALPHABET <==> Complement(c) in ALPHABET
    ensures c !in ALPHABET ==> Complement(c) == c
  {
  }

  /** `seq.translate(COMP_BASES)`: every character replaced by its complement. */
  function Translate(s: string): (t: string)
    ensures |t| == |s|
    ensures forall i | 0 <= i < |s| :: t[i] == Complement(s[i])
  {
    if s == [] then [] else [Complement(s[0])] + Translate(s[1..])
  }

  /** `revcomp(seq)`: translate through the complement table, then reverse. */
  function Revcomp(s: string): (r: string)
    ensures |r| == |s|
    ensures forall i | 0 <= i < |s| :: r[i] == Complement(s[|s| - 1 - i])
  {
    Reverse(Translate(s))
  }

  lemma {:induction false} RevcompInvolutive(s: string)
    ensures Revcomp(Revcomp(s)) == s
  {
    var r := Revcomp(Revcomp(s));
    forall i | 0 <= i < |s|
      ensures r[i] == s[i]
    {
      ComplementPairs(s[i]);
    }
  }

  lemma TranslateConcat(s: string, t: string)
    ensures Translate(s + t) == Translate(s) + Translate(t)
  {
    var l, r := Translate(s + t), Translate(s) + Translate(t);
    assert |l| == |r|;
    forall i | 0 <= i < |l|
      ensures l[i] == r[i]
    {
      if i < |s| {
        assert (s + t)[i] == s[i];
      } else {
        assert (s + t)[i] == t[i - |s|];
      }
    }
  }

  lemma RevcompConcat(s: string, t: string)
    ensures Revcomp(s + t) == Revcomp(t) + Revcomp(s)
  {
    TranslateConcat(s, t);
    ReverseConcat(Translate(s), Translate(t));
  }

  /** Characters outside the nucleotide alphabet keep their value in
      `revcomp`; only their position is mirrored. */
  lemma RevcompPassesThrough(s: string, i: int)
    requires 0 <= i < |s| && s[|s| - 1 - i] !in ALPHABET
    ensures Revcomp(s)[i] == s[|s| - 1 - i]
  {
    ComplementPairs(s[|s| - 1 - i]);
  }

  /** The integer square root: the largest r with r * r <= m. */
  function ISqrt(m: nat): (r: nat)
    ensures r * r <= m < (r + 1) * (r + 1)
  {
    if m == 0 then 0
    else
      var r := ISqrt(m - 1);
      if (r + 1) * (r + 1) <= m then r + 1 else r
  }

  /** `nstate_to_nbase(nstate)`, `int(sqrt(0.25 + 0.5 * nstate) - 0.5)`, in exact
      arithmetic. Since sqrt(0.25 + nstate / 2) == sqrt(2 * nstate + 1) / 2 and
      the value is never negative, truncation is the floor of
      (sqrt(2 * nstate + 1) - 1) / 2, which depends only on the integer square
      root of 2 * nstate + 1. The result is the number of bases b whose
      flip-flop transition count 2 * b * (b + 1) fits in nstate. */
  function NStateToNBase(nstate: nat): (b: nat)
    ensures 2 * b * (b + 1) <= nstate < 2 * (b + 1) * (b + 2)
  {
    var s := ISqrt(2 * nstate + 1);
    assert s >= 1;
    NStateFromRoot(nstate, s);
    (s - 1) / 2
  }

  lemma NStateFromRoot(nstate: nat, s: nat)
    requires s >= 1 && s * s <= 2 * nstate + 1 < (s + 1) * (s + 1)
    ensures 2 * ((s - 1) / 2) * ((s - 1) / 2 + 1) <= nstate
    ensures nstate < 2 * ((s - 1) / 2 + 1) * ((s - 1) / 2 + 2)
  {
    var b := (s - 1) / 2;
    assert s == 2 * b + 1 || s == 2 * b + 2;
    SquaresAround(b);
  }

  /** The polynomial identities behind `NStateFromRoot`, stated apart so that
      the nonlinear steps are proved in a small context. */
  lemma SquaresAround(b: int)
    ensures (2 * b + 1) * (2 * b + 1) == 4 * (b * b) + 4 * b + 1
    ensures (2 * b + 2) * (2 * b + 2) == 4 * (b * b) + 8 * b + 4
    ensures (2 * b + 3) * (2 * b + 3) == 4 * (b * b) + 12 * b + 9
    ensures 2 * b * (b + 1) == 2 * (b * b) + 2 * b
    ensures 2 * (b + 1) * (b + 2) == 2 * (b * b) + 6 * b + 4
  {
  }

  /** The transition count 2 * b * (b + 1) grows with b. */
  lemma {:induction false} TransitionsMonotone(a: nat, b: nat)
    requires a <= b
    ensures 2 * a * (a + 1) <= 2 * b * (b + 1)
    decreases b - a
  {
    if a < b {
      TransitionsMonotone(a, b - 1);
      assert 2 * b * (b + 1) == 2 * (b - 1) * b + 4 * b;
    }
  }

  /** `nstate_to_nbase(nstate)` is the largest b with 2 * b * (b + 1) <= nstate. */
  lemma NStateToNBaseIsLargest(nstate: nat, b: nat)
    requires 2 * b * (b + 1) <= nstate
    ensures b <= NStateToNBase(nstate)
  {
    var r := NStateToNBase(nstate);
    if b > r {
      TransitionsMonotone(r + 1, b);
    }
  }

  lemma NStateToNBaseMonotone(n: nat, m: nat)
    requires n <= m
    ensures NStateToNBase(n) <= NStateToNBase(m)
  {
    NStateToNBaseIsLargest(m, NStateToNBase(n));
  }

  /** Exactly the output sizes 40 to 59 decode to four bases. */
  lemma FourBasesRange(nstate: nat)
    ensures NStateToNBase(nstate) == 4 <==> 40 <= nstate < 60
  {
    var b := NStateToNBase(nstate);
    if b == 4 {
      assert 2 * 4 * (4 + 1) <= nstate < 2 * (4 + 1) * (4 + 2);
    }
    if 40 <= nstate < 60 {
      assert b >= 4 by {
        NStateToNBaseIsLargest(nstate, 4);
      }
      assert b < 5 by {
        if b >= 5 {
          TransitionsMonotone(5, b);
          assert false;
        }
      }
    }
  }

  /** A plain flip-flop model has 40 outputs, which is four bases. */
  lemma FortyStatesAreFourBases()
    ensures NStateToNBase(40) == 4
  {
    FourBasesRange(40);
  }
}
